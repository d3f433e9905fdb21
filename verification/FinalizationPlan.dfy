/**
 * Campaign finalization: the first reflection plan of a resolved ticket is frozen by a write-once
 * bridge anchor before a sidecar file records it, so that every retry hands on the same evidence.
 */
module FinalizationPlan {
  import opened Common

  type Ticket = string
  type Id = string

  datatype Component = Component(value: string)

  /** The sealed resolution of one ticket. */
  datatype Witness = Witness(
    ticket: Ticket, binding: Id, bundle: Id, transition: Id, observation: Id, action: Id, baseline: Id, next: Id,
    environment: Id, episode: Id, outcome: Id, reward: Id, rewardValue: int, truth: string, simulation: Option<Id>,
    rewardAvailableAt: Instant)

  /** The reflection policy that a caller brings; it may differ from retry to retry. */
  datatype Policy = Policy(
    summary: string, reason: string, components: seq<Component>, question: Option<string>, budget: Option<int>,
    deadline: Option<Instant>)

  /** What a policy object guarantees of its research part: a question comes with a positive budget. */
  predicate PolicySound(p: Policy) {
    if p.question.None? then p.budget.None? && p.deadline.None? else p.budget.Some? && p.budget.value > 0
  }

  datatype Semantic = Semantic(
    ticket: Ticket, binding: Id, bundle: Id, transition: Id, observation: Id, action: Id, baseline: Id, next: Id,
    summary: string, reason: string, components: seq<Component>, question: Option<string>, budget: Option<int>,
    deadline: Option<Instant>)

  /** The plan digest is injective in the semantics and the frozen time, so the plan stands for its id. */
  datatype Plan = Plan(semantic: Semantic, frozenAt: Instant)

  datatype SideRecord = SideRecord(id: Plan, semantic: Semantic, frozenAt: Instant)

  datatype Sidecar = Unreadable | Plans(plans: map<Ticket, SideRecord>)

  datatype Anchor = Anchor(id: Plan, frozenAt: Instant)

  datatype PlanError =
    | NotResolved | TooEarly | BadSidecar | PlanConflict | PlanInconsistent | AnchorConflict | AnchorMissing
    | Crashed | EvidenceConflict | NoSupervisor

  // ---- Evidence handed to the AgentLoop -----------------------------------------------------------

  datatype Finding = Finding(component: Component, evidence: Id, availableAt: Instant, reason: string)

  datatype Attribution = Attribution(
    environment: Id, episode: Id, transition: Id, action: Id, outcome: Id, reward: Id, rewardValue: int,
    truth: string, simulation: Option<Id>, attributedAt: Instant, findings: seq<Finding>)

  /** The attribution digest is injective, so the attribution stands for its id. */
  datatype Postmortem = Postmortem(
    attribution: Attribution, transition: Id, createdAt: Instant, components: seq<Component>, summary: string,
    question: Option<string>)

  /**
   * The bounded question for the research supervisor; its id is a digest of the postmortem and the
   * statement, so those stand for it.
   */
  datatype Research = Research(
    postmortem: Postmortem, statement: string, requestedAt: Instant, budget: Option<int>, deadline: Option<Instant>)

  function FindingsOf(w: Witness, reason: string, components: seq<Component>, at: Instant): (r: seq<Finding>)
    ensures |r| == |components|
    ensures forall i :: 0 <= i < |r| ==> r[i] == Finding(components[i], w.bundle, at, reason)
  {
    if components == [] then []
    else FindingsOf(w, reason, components[..|components| - 1], at)
         + [Finding(components[|components| - 1], w.bundle, at, reason)]
  }

  function AttributionOf(w: Witness, p: Policy, at: Instant): Attribution {
    Attribution(w.environment, w.episode, w.transition, w.action, w.outcome, w.reward, w.rewardValue, w.truth,
                w.simulation, at, FindingsOf(w, p.reason, p.components, at))
  }

  function PostmortemOf(a: Attribution, w: Witness, p: Policy, at: Instant): Postmortem {
    Postmortem(a, w.transition, at, p.components, p.summary, p.question)
  }

  /** The research part of a policy, asked on behalf of its postmortem. */
  function ResearchOf(m: Postmortem, p: Policy, at: Instant): Option<Research> {
    match p.question
    case None => None
    case Some(statement) => Some(Research(m, statement, at, p.budget, p.deadline))
  }

  // ---- The durable state ---------------------------------------------------------------------------

  /** What the AgentLoop holds for one ticket; it takes an exact repeat only. */
  datatype Evidence = Evidence(
    attribution: Option<Attribution>, postmortem: Option<Postmortem>, handoff: Option<Research>, checkpoint: Option<Id>)

  const NO_EVIDENCE := Evidence(None, None, None, None)

  /** `requests` is what the research supervisor accepted; it too takes an exact repeat only. */
  datatype World = World(
    resolutions: map<Ticket, Witness>, anchors: map<Ticket, Anchor>, sidecar: Sidecar, evidence: map<Ticket, Evidence>,
    requests: map<Ticket, Research>)

  const PRISTINE := World(map[], map[], Plans(map[]), map[], map[])

  function AnchorOf(w: World, t: Ticket): Option<Anchor> { if t in w.anchors then Some(w.anchors[t]) else None }

  function EvidenceOf(w: World, t: Ticket): Evidence { if t in w.evidence then w.evidence[t] else NO_EVIDENCE }

  function RequestOf(w: World, t: Ticket): Option<Research> { if t in w.requests then Some(w.requests[t]) else None }

  function SemanticOf(w: Witness, p: Policy): Semantic {
    Semantic(w.ticket, w.binding, w.bundle, w.transition, w.observation, w.action, w.baseline, w.next,
             p.summary, p.reason, p.components, p.question, p.budget, p.deadline)
  }

  /** The record for a frozen time, unless it predates the reward or outlives the deadline. */
  function RecordFor(w: Witness, p: Policy, at: Instant): Option<SideRecord> {
    if at < w.rewardAvailableAt || (p.deadline.Some? && p.deadline.value < at) then None
    else Some(SideRecord(Plan(SemanticOf(w, p), at), SemanticOf(w, p), at))
  }

  predicate SideRecordSound(t: Ticket, r: SideRecord) {
    && r.semantic.ticket == t && r.id == Plan(r.semantic, r.frozenAt)
    && (r.semantic.budget.Some? ==> r.semantic.budget.value > 0)
    && (r.semantic.deadline.Some? ==> r.frozenAt <= r.semantic.deadline.value)
  }

  predicate SidecarSound(s: Sidecar) { s.Plans? && forall t :: t in s.plans ==> SideRecordSound(t, s.plans[t]) }

  function Existing(s: Sidecar, t: Ticket): Option<SideRecord>
    requires s.Plans?
  {
    if t in s.plans then Some(s.plans[t]) else None
  }

  /** The write-once anchor: the first value stays, an exact repeat is acknowledged. */
  function BindAnchor(w: World, t: Ticket, anchor: Anchor): Result<World, PlanError> {
    if t !in w.resolutions then Err(NotResolved)
    else if t in w.anchors then (if w.anchors[t] == anchor then Ok(w) else Err(AnchorConflict))
    else Ok(w.(anchors := w.anchors[t := anchor]))
  }

  // ---- One binding -----------------------------------------------------------------------------------

  /**
   * The environment of one call: a stop after the anchor write, another caller's anchor that lands in
   * between, and whatever the sidecar was replaced with before it is read again.
   */
  datatype Env = Env(stop: bool, raced: Option<Anchor>, swapped: Option<Sidecar>)

  function Race(w: World, t: Ticket, env: Env): World {
    if env.raced.Some? && t in w.resolutions && t !in w.anchors
    then w.(anchors := w.anchors[t := env.raced.value]) else w
  }

  function Swap(w: World, env: Env): World {
    if env.swapped.Some? then w.(sidecar := env.swapped.value) else w
  }

  /** Records the plan in the sidecar unless another plan appeared there. */
  function RecordPlan(w: World, t: Ticket, record: SideRecord): (World, Result<Instant, PlanError>) {
    if !SidecarSound(w.sidecar) then (w, Err(BadSidecar))
    else
      match Existing(w.sidecar, t)
      case Some(r) => if r == record then (w, Ok(record.frozenAt)) else (w, Err(PlanConflict))
      case None => (w.(sidecar := Plans(w.sidecar.plans[t := record])), Ok(record.frozenAt))
  }

  function BindExisting(w: World, x: Witness, p: Policy, existing: SideRecord): (World, Result<Instant, PlanError>) {
    if existing.semantic != SemanticOf(x, p) then (w, Err(PlanConflict))
    else
      match RecordFor(x, p, existing.frozenAt)
      case None => (w, Err(TooEarly))
      case Some(expected) =>
        if existing != expected then (w, Err(PlanInconsistent))
        else match BindAnchor(w, x.ticket, Anchor(expected.id, expected.frozenAt))
             case Err(e) => (w, Err(e))
             case Ok(v) => (v, Ok(expected.frozenAt))
  }

  function BindAnchored(w: World, x: Witness, p: Policy, anchor: Anchor, env: Env)
    : (World, Result<Instant, PlanError>)
  {
    match RecordFor(x, p, anchor.frozenAt)
    case None => (w, Err(TooEarly))
    case Some(frozen) =>
      if frozen.id != anchor.id then (w, Err(AnchorConflict)) else RecordPlan(Swap(w, env), x.ticket, frozen)
  }

  function BindNew(w: World, x: Witness, p: Policy, at: Instant, env: Env): (World, Result<Instant, PlanError>) {
    match RecordFor(x, p, at)
    case None => (w, Err(TooEarly))
    case Some(record) =>
      match BindAnchor(w, x.ticket, Anchor(record.id, record.frozenAt))
      case Err(e) => (w, Err(e))
      case Ok(v) => if env.stop then (v, Err(Crashed)) else RecordPlan(Swap(v, env), x.ticket, record)
  }

  /** Binds the finalization plan of a resolved ticket and returns its frozen reflection time. */
  function BindStep(w: World, x: Witness, p: Policy, at: Instant, requireExisting: bool, env: Env)
    : (World, Result<Instant, PlanError>)
  {
    if !SidecarSound(w.sidecar) then (w, Err(BadSidecar))
    else
      var existing, anchor := Existing(w.sidecar, x.ticket), AnchorOf(w, x.ticket);
      var v := Race(w, x.ticket, env);
      if existing.Some? then BindExisting(v, x, p, existing.value)
      else if anchor.Some? then BindAnchored(v, x, p, anchor.value, env)
      else if requireExisting then (v, Err(AnchorMissing))
      else BindNew(v, x, p, at, env)
  }

  /** The ticket is anchored to the plan of this witness and policy at this time. */
  predicate AnchoredTo(w: World, x: Witness, p: Policy, at: Instant) {
    && AnchorOf(w, x.ticket) == Some(Anchor(Plan(SemanticOf(x, p), at), at))
    && x.rewardAvailableAt <= at && (p.deadline.Some? ==> at <= p.deadline.value)
  }

  lemma RecordPlanResult(w: World, t: Ticket, record: SideRecord)
    ensures RecordPlan(w, t, record).0.anchors == w.anchors
    ensures RecordPlan(w, t, record).0.resolutions == w.resolutions && RecordPlan(w, t, record).0.evidence == w.evidence
    ensures RecordPlan(w, t, record).1.Ok? ==> RecordPlan(w, t, record).1.value == record.frozenAt
    ensures RecordPlan(w, t, record).1 != Err(EvidenceConflict)
  {
  }

  /** Both durable places hold the plan of this witness and policy, frozen at this time. */
  predicate Converged(w: World, x: Witness, p: Policy, at: Instant) {
    && AnchoredTo(w, x, p, at) && w.sidecar.Plans?
    && Existing(w.sidecar, x.ticket) == Some(SideRecord(Plan(SemanticOf(x, p), at), SemanticOf(x, p), at))
  }

  /** The outcome of one binding: on success both places agree, and the sidecar is sound for a sound policy. */
  predicate Converges(v: World, x: Witness, p: Policy, r: Result<Instant, PlanError>) {
    r.Ok? ==> Converged(v, x, p, r.value) && (PolicySound(p) ==> SidecarSound(v.sidecar))
  }

  lemma RecordConverges(w: World, x: Witness, p: Policy, at: Instant)
    requires AnchoredTo(w, x, p, at)
    ensures var (v, r) := RecordPlan(w, x.ticket, SideRecord(Plan(SemanticOf(x, p), at), SemanticOf(x, p), at));
            Converges(v, x, p, r)
  {
  }

  lemma ExistingConverges(w: World, x: Witness, p: Policy, existing: SideRecord)
    requires SidecarSound(w.sidecar) && Existing(w.sidecar, x.ticket) == Some(existing)
    ensures var (v, r) := BindExisting(w, x, p, existing); Converges(v, x, p, r)
  {
  }

  lemma AnchoredConverges(w: World, x: Witness, p: Policy, anchor: Anchor, env: Env)
    requires AnchorOf(w, x.ticket) == Some(anchor)
    ensures var (v, r) := BindAnchored(w, x, p, anchor, env); Converges(v, x, p, r)
  {
    if RecordFor(x, p, anchor.frozenAt).Some? && RecordFor(x, p, anchor.frozenAt).value.id == anchor.id {
      RecordConverges(Swap(w, env), x, p, anchor.frozenAt);
    }
  }

  lemma NewConverges(w: World, x: Witness, p: Policy, at: Instant, env: Env)
    ensures var (v, r) := BindNew(w, x, p, at, env); Converges(v, x, p, r)
  {
    if RecordFor(x, p, at).Some? {
      var record := RecordFor(x, p, at).value;
      var bound := BindAnchor(w, x.ticket, Anchor(record.id, record.frozenAt));
      if bound.Ok? { RecordConverges(Swap(bound.value, env), x, p, at); }
    }
  }

  /** A successful binding leaves exactly its own plan and time in the ticket's anchor and in the sidecar. */
  lemma SuccessConverges(w: World, x: Witness, p: Policy, at: Instant, requireExisting: bool, env: Env)
    ensures var (v, r) := BindStep(w, x, p, at, requireExisting, env); Converges(v, x, p, r)
  {
    if SidecarSound(w.sidecar) {
      var v := Race(w, x.ticket, env);
      if Existing(w.sidecar, x.ticket).Some? {
        ExistingConverges(v, x, p, Existing(w.sidecar, x.ticket).value);
      } else if AnchorOf(w, x.ticket).Some? {
        AnchoredConverges(v, x, p, AnchorOf(w, x.ticket).value, env);
      } else {
        NewConverges(v, x, p, at, env);
      }
    }
  }

  lemma SuccessMeansAnchored(w: World, x: Witness, p: Policy, at: Instant, requireExisting: bool, env: Env)
    requires BindStep(w, x, p, at, requireExisting, env).1.Ok?
    ensures var (v, r) := BindStep(w, x, p, at, requireExisting, env); AnchoredTo(v, x, p, r.value)
  {
    SuccessConverges(w, x, p, at, requireExisting, env);
  }

  /** Nothing that a call does changes an anchor, a resolution or any evidence. */
  predicate AnchorsKept(w: World, v: World) {
    && v.resolutions == w.resolutions && v.evidence == w.evidence && v.requests == w.requests
    && forall t :: t in w.anchors ==> t in v.anchors && v.anchors[t] == w.anchors[t]
  }

  /** Only this ticket's anchor may be new. */
  predicate OwnAnchor(w: World, v: World, t: Ticket) { v.anchors.Keys <= w.anchors.Keys + {t} }

  lemma BindKeepsAnchors(w: World, x: Witness, p: Policy, at: Instant, requireExisting: bool, env: Env)
    ensures AnchorsKept(w, BindStep(w, x, p, at, requireExisting, env).0)
    ensures OwnAnchor(w, BindStep(w, x, p, at, requireExisting, env).0, x.ticket)
    ensures BindStep(w, x, p, at, requireExisting, env).1 != Err(EvidenceConflict)
  {
    var v := Race(w, x.ticket, env);
    assert AnchorsKept(w, v) && OwnAnchor(w, v, x.ticket);
    if SidecarSound(w.sidecar) {
      if Existing(w.sidecar, x.ticket).Some? {
        ExistingKeeps(v, x, p, Existing(w.sidecar, x.ticket).value);
      } else if AnchorOf(w, x.ticket).Some? {
        AnchoredKeeps(v, x, p, AnchorOf(w, x.ticket).value, env);
      } else {
        NewKeeps(v, x, p, at, env);
      }
    }
  }

  lemma ExistingKeeps(w: World, x: Witness, p: Policy, existing: SideRecord)
    ensures AnchorsKept(w, BindExisting(w, x, p, existing).0)
    ensures OwnAnchor(w, BindExisting(w, x, p, existing).0, x.ticket)
    ensures BindExisting(w, x, p, existing).1 != Err(EvidenceConflict)
  {
  }

  lemma AnchoredKeeps(w: World, x: Witness, p: Policy, anchor: Anchor, env: Env)
    ensures AnchorsKept(w, BindAnchored(w, x, p, anchor, env).0)
    ensures OwnAnchor(w, BindAnchored(w, x, p, anchor, env).0, x.ticket)
    ensures BindAnchored(w, x, p, anchor, env).1 != Err(EvidenceConflict)
  {
    if RecordFor(x, p, anchor.frozenAt).Some? {
      RecordPlanResult(Swap(w, env), x.ticket, RecordFor(x, p, anchor.frozenAt).value);
    }
  }

  lemma NewKeeps(w: World, x: Witness, p: Policy, at: Instant, env: Env)
    ensures AnchorsKept(w, BindNew(w, x, p, at, env).0) && OwnAnchor(w, BindNew(w, x, p, at, env).0, x.ticket)
    ensures BindNew(w, x, p, at, env).1 != Err(EvidenceConflict)
  {
    if RecordFor(x, p, at).Some? {
      var record := RecordFor(x, p, at).value;
      var bound := BindAnchor(w, x.ticket, Anchor(record.id, record.frozenAt));
      if bound.Ok? {
        assert AnchorsKept(w, bound.value);
        RecordPlanResult(Swap(bound.value, env), x.ticket, record);
      }
    }
  }

  // ---- Finalization ------------------------------------------------------------------------------------

  /** Where a call stops, if it does; `Unsupervised` fails where a research supervisor is needed. */
  datatype FinalizeStop =
    RunOn | AfterPlan | AfterAttribution | AfterPostmortem | Unsupervised | AfterRequest | AfterHandoff

  function RecordAttribution(w: World, t: Ticket, a: Attribution): Result<World, PlanError> {
    var e := EvidenceOf(w, t);
    if e.attribution.Some? && e.attribution.value != a then Err(EvidenceConflict)
    else Ok(w.(evidence := w.evidence[t := e.(attribution := Some(a))]))
  }

  function RecordPostmortem(w: World, t: Ticket, m: Postmortem): Result<World, PlanError> {
    var e := EvidenceOf(w, t);
    if e.postmortem.Some? && e.postmortem.value != m then Err(EvidenceConflict)
    else Ok(w.(evidence := w.evidence[t := e.(postmortem := Some(m))]))
  }

  /** The supervisor accepts the first request of a ticket and exact repeats of it. */
  function RequestResearch(w: World, t: Ticket, q: Research): Result<World, PlanError> {
    if t in w.requests && w.requests[t] != q then Err(EvidenceConflict) else Ok(w.(requests := w.requests[t := q]))
  }

  function RecordHandoff(w: World, t: Ticket, q: Research): World {
    w.(evidence := w.evidence[t := EvidenceOf(w, t).(handoff := Some(q))])
  }

  function CommitCheckpoint(w: World, t: Ticket, next: Id): World {
    w.(evidence := w.evidence[t := EvidenceOf(w, t).(checkpoint := Some(next))])
  }

  /** The evidence that one finalize hands on, the research request, and the checkpoint it reaches. */
  datatype Handed = Handed(
    attribution: Attribution, postmortem: Postmortem, research: Option<Research>, checkpoint: Id)

  function HandedBy(x: Witness, p: Policy, at: Instant): Handed {
    var m := PostmortemOf(AttributionOf(x, p, at), x, p, at);
    Handed(m.attribution, m, ResearchOf(m, p, at), x.next)
  }

  /** Asks the supervisor, records the handoff, and commits the checkpoint. */
  function AskResearch(w: World, t: Ticket, h: Handed, q: Research, stop: FinalizeStop)
    : (World, Result<Handed, PlanError>)
  {
    match RequestResearch(w, t, q)
    case Err(error) => (w, Err(error))
    case Ok(requested) =>
      if stop == AfterRequest then (requested, Err(Crashed))
      else
        var v := RecordHandoff(requested, t, q);
        if stop == AfterHandoff then (v, Err(Crashed)) else (CommitCheckpoint(v, t, h.checkpoint), Ok(h))
  }

  /** The research handoff, unless it is recorded already or not asked for, and then the checkpoint. */
  function HandOff(w: World, t: Ticket, h: Handed, stop: FinalizeStop): (World, Result<Handed, PlanError>) {
    var held := EvidenceOf(w, t).handoff;
    if h.research.Some? && held.None? then
      if stop == Unsupervised then (w, Err(NoSupervisor)) else AskResearch(w, t, h, h.research.value, stop)
    else if stop == AfterHandoff then (w, Err(Crashed))
    else (CommitCheckpoint(w, t, h.checkpoint), Ok(h.(research := held)))
  }

  /** Everything after the plan is bound. */
  function Conclude(v: World, t: Ticket, h: Handed, stop: FinalizeStop): (World, Result<Handed, PlanError>) {
    match RecordAttribution(v, t, h.attribution)
    case Err(e) => (v, Err(e))
    case Ok(attributed) =>
      if stop == AfterAttribution then (attributed, Err(Crashed))
      else
        match RecordPostmortem(attributed, t, h.postmortem)
        case Err(e) => (attributed, Err(e))
        case Ok(reflected) =>
          if stop == AfterPostmortem then (reflected, Err(Crashed)) else HandOff(reflected, t, h, stop)
  }

  function FinalizeStep(w: World, t: Ticket, p: Policy, now: Instant, env: Env, stop: FinalizeStop)
    : (World, Result<Handed, PlanError>)
  {
    if t !in w.resolutions then (w, Err(NotResolved))
    else
      var x := w.resolutions[t];
      if now < x.rewardAvailableAt then (w, Err(TooEarly))
      else
        var (v, bound) := BindStep(w, x, p, now, EvidenceOf(w, t).attribution.Some?, env);
        if bound.Err? then (v, Err(bound.error))
        else if stop == AfterPlan then (v, Err(Crashed))
        else Conclude(v, t, HandedBy(x, p, bound.value), stop)
  }

  // ---- Runs ----------------------------------------------------------------------------------------------

  datatype Op =
    | Resolve(x: Witness)
    | Bind(x: Witness, p: Policy, now: Instant, requireExisting: bool, env: Env)
    | Finalize(t: Ticket, p: Policy, now: Instant, env: Env, stop: FinalizeStop)
    | Tamper(sidecar: Sidecar)

  /** A resolution is sealed once; the sidecar may be lost, rolled back or forged at any time. */
  function Apply(w: World, op: Op): World {
    match op
    case Resolve(x) => if x.ticket in w.resolutions then w else w.(resolutions := w.resolutions[x.ticket := x])
    case Bind(x, p, now, requireExisting, env) => BindStep(w, x, p, now, requireExisting, env).0
    case Finalize(t, p, now, env, stop) => FinalizeStep(w, t, p, now, env, stop).0
    case Tamper(sidecar) => w.(sidecar := sidecar)
  }

  function Run(w: World, ops: seq<Op>): World
    decreases |ops|
  {
    if ops == [] then w else Run(Apply(w, ops[0]), ops[1..])
  }

  /** No step of any kind alters an anchor or a resolution. */
  predicate Kept(w: World, v: World) {
    && (forall t :: t in w.anchors ==> t in v.anchors && v.anchors[t] == w.anchors[t])
    && (forall t :: t in w.resolutions ==> t in v.resolutions && v.resolutions[t] == w.resolutions[t])
  }

  /** Finalizing binds the plan and then touches evidence only. */
  lemma FinalizeBindsOnly(w: World, t: Ticket, p: Policy, now: Instant, env: Env, stop: FinalizeStop)
    requires t in w.resolutions && w.resolutions[t].rewardAvailableAt <= now
    ensures var v := FinalizeStep(w, t, p, now, env, stop).0;
            var bound := BindStep(w, w.resolutions[t], p, now, EvidenceOf(w, t).attribution.Some?, env).0;
            v.anchors == bound.anchors && v.resolutions == bound.resolutions && v.sidecar == bound.sidecar
  {
    var (v, r) := BindStep(w, w.resolutions[t], p, now, EvidenceOf(w, t).attribution.Some?, env);
    if r.Ok? && stop != AfterPlan { ConcludesOnly(v, t, HandedBy(w.resolutions[t], p, r.value), stop); }
  }

  /** A step that leaves plan, resolutions and sidecar, and forgets no request. */
  predicate Concludes(v: World, u: World) {
    && u.anchors == v.anchors && u.resolutions == v.resolutions && u.sidecar == v.sidecar
    && v.requests.Keys <= u.requests.Keys
  }

  lemma AskConcludes(v: World, t: Ticket, h: Handed, q: Research, stop: FinalizeStop)
    ensures Concludes(v, AskResearch(v, t, h, q, stop).0)
  {
  }

  lemma HandOffConcludes(v: World, t: Ticket, h: Handed, stop: FinalizeStop)
    ensures Concludes(v, HandOff(v, t, h, stop).0)
  {
    if h.research.Some? { AskConcludes(v, t, h, h.research.value, stop); }
  }

  lemma ConcludesOnly(v: World, t: Ticket, h: Handed, stop: FinalizeStop)
    ensures Concludes(v, Conclude(v, t, h, stop).0)
  {
    if RecordAttribution(v, t, h.attribution).Ok? {
      var attributed := RecordAttribution(v, t, h.attribution).value;
      if RecordPostmortem(attributed, t, h.postmortem).Ok? {
        HandOffConcludes(RecordPostmortem(attributed, t, h.postmortem).value, t, h, stop);
      }
    }
  }

  lemma ApplyKeeps(w: World, op: Op)
    ensures Kept(w, Apply(w, op))
  {
    match op
    case Bind(x, p, now, requireExisting, env) => BindKeepsAnchors(w, x, p, now, requireExisting, env);
    case Finalize(t, p, now, env, stop) =>
      if t in w.resolutions && w.resolutions[t].rewardAvailableAt <= now {
        FinalizeBindsOnly(w, t, p, now, env, stop);
        BindKeepsAnchors(w, w.resolutions[t], p, now, EvidenceOf(w, t).attribution.Some?, env);
      }
    case _ =>
  }

  lemma {:induction false} RunKeeps(w: World, ops: seq<Op>)
    ensures Kept(w, Run(w, ops))
    decreases |ops|
  {
    if ops == [] {
    } else {
      ApplyKeeps(w, ops[0]);
      RunKeeps(Apply(w, ops[0]), ops[1..]);
    }
  }

  /** The bridge's anchor is write-once over any run: only an exact repeat is ever acknowledged again. */
  lemma AnchorIsWriteOnce(w: World, ops: seq<Op>, t: Ticket, first: Anchor, again: Anchor)
    requires BindAnchor(w, t, first).Ok?
    ensures var after := Run(BindAnchor(w, t, first).value, ops);
            && AnchorOf(after, t) == Some(first)
            && BindAnchor(after, t, again) == if again == first then Ok(after) else Err(AnchorConflict)
  {
    RunKeeps(BindAnchor(w, t, first).value, ops);
  }

  /**
   * Frozen plan agreement for bindings: whatever runs in between, two successful bindings of a ticket
   * carry the same plan, budget and deadline included, and return the same reflection time.
   */
  lemma AllBindingsAgree(
    w: World, ops: seq<Op>, x: Witness, y: Witness, p: Policy, q: Policy, now: Instant, later: Instant,
    required: bool, requiredLater: bool, e: Env, f: Env)
    requires y.ticket == x.ticket && BindStep(w, x, p, now, required, e).1.Ok?
    requires var after := Run(BindStep(w, x, p, now, required, e).0, ops);
             BindStep(after, y, q, later, requiredLater, f).1.Ok?
    ensures var after := Run(BindStep(w, x, p, now, required, e).0, ops);
            && SemanticOf(y, q) == SemanticOf(x, p)
            && BindStep(after, y, q, later, requiredLater, f).1 == BindStep(w, x, p, now, required, e).1
  {
    var first := BindStep(w, x, p, now, required, e).0;
    SuccessMeansAnchored(w, x, p, now, required, e);
    RunKeeps(first, ops);
    BindKeepsAnchors(Run(first, ops), y, q, later, requiredLater, f);
    SuccessMeansAnchored(Run(first, ops), y, q, later, requiredLater, f);
  }

  // ---- Agreement ---------------------------------------------------------------------------------------

  /** The evidence that a frozen plan determines, whatever policy object carries it. */
  function HandedFrom(x: Witness, plan: Plan): Handed {
    var s := plan.semantic;
    HandedBy(x, Policy(s.summary, s.reason, s.components, s.question, s.budget, s.deadline), plan.frozenAt)
  }

  /** What the AgentLoop and the supervisor hold is what the anchored plan determines. */
  predicate EvidenceAnchored(w: World, t: Ticket) {
    var e := EvidenceOf(w, t);
    || (e == NO_EVIDENCE && t !in w.requests)
    || (&& t in w.anchors && t in w.resolutions
        && Determined(e, HandedFrom(w.resolutions[t], w.anchors[t].id))
        && RequestOf(w, t) in {None, HandedFrom(w.resolutions[t], w.anchors[t].id).research})
  }

  predicate Determined(e: Evidence, h: Handed) {
    && (e.attribution.Some? ==> e.attribution.value == h.attribution)
    && (e.postmortem.Some? ==> e.postmortem.value == h.postmortem)
    && (e.handoff.Some? ==> e.handoff == h.research)
    && (e.checkpoint.Some? ==> e.checkpoint.value == h.checkpoint)
  }

  predicate ResolutionsSound(w: World) { forall t :: t in w.resolutions ==> w.resolutions[t].ticket == t }

  ghost predicate Inv(w: World) { ResolutionsSound(w) && forall t :: EvidenceAnchored(w, t) }

  lemma PlanDeterminesEvidence(x: Witness, p: Policy, at: Instant)
    ensures HandedFrom(x, Plan(SemanticOf(x, p), at)) == HandedBy(x, p, at)
  {
  }

  /** The ticket is anchored and resolved, and `h` is what its plan determines. */
  predicate FromPlan(v: World, t: Ticket, h: Handed) {
    t in v.anchors && t in v.resolutions && h == HandedFrom(v.resolutions[t], v.anchors[t].id)
  }

  /** A step that touches only what is held for one ticket. */
  ghost predicate TouchesOnly(v: World, u: World, t: Ticket) {
    && u.anchors == v.anchors && u.resolutions == v.resolutions && u.sidecar == v.sidecar
    && (forall s :: s != t ==> EvidenceOf(u, s) == EvidenceOf(v, s))
    && (forall s :: s != t ==> RequestOf(u, s) == RequestOf(v, s))
  }

  lemma SameAnchored(v: World, u: World, s: Ticket)
    requires EvidenceAnchored(v, s) && u.anchors == v.anchors && u.resolutions == v.resolutions
    requires EvidenceOf(u, s) == EvidenceOf(v, s) && RequestOf(u, s) == RequestOf(v, s)
    ensures EvidenceAnchored(u, s)
  {
  }

  lemma TouchKeeps(v: World, u: World, t: Ticket)
    requires Inv(v) && TouchesOnly(v, u, t) && EvidenceAnchored(u, t)
    ensures Inv(u)
  {
    forall s ensures EvidenceAnchored(u, s) {
      assert EvidenceAnchored(v, s);
      if s != t { SameAnchored(v, u, s); }
    }
  }

  lemma CheckpointKeeps(w: World, t: Ticket, h: Handed)
    requires Inv(w) && FromPlan(w, t, h)
    ensures Inv(CommitCheckpoint(w, t, h.checkpoint)) && FromPlan(CommitCheckpoint(w, t, h.checkpoint), t, h)
  {
    assert EvidenceAnchored(w, t);
    TouchKeeps(w, CommitCheckpoint(w, t, h.checkpoint), t);
  }

  /** Asking for the research that the plan determines meets no conflict. */
  lemma AskKeeps(w: World, t: Ticket, h: Handed, q: Research, stop: FinalizeStop)
    requires Inv(w) && FromPlan(w, t, h) && h.research == Some(q)
    ensures Inv(AskResearch(w, t, h, q, stop).0) && FromPlan(AskResearch(w, t, h, q, stop).0, t, h)
    ensures AskResearch(w, t, h, q, stop).1 in {Ok(h), Err(Crashed)}
  {
    assert EvidenceAnchored(w, t);
    var requested := RequestResearch(w, t, q).value;
    TouchKeeps(w, requested, t);
    var v := RecordHandoff(requested, t, q);
    TouchKeeps(requested, v, t);
    CheckpointKeeps(v, t, h);
  }

  /** Handing on what the anchored plan determines keeps the invariant at each step and meets no conflict. */
  lemma HandOffKeeps(w: World, t: Ticket, h: Handed, stop: FinalizeStop)
    requires Inv(w) && FromPlan(w, t, h)
    ensures Inv(HandOff(w, t, h, stop).0) && FromPlan(HandOff(w, t, h, stop).0, t, h)
    ensures HandOff(w, t, h, stop).1 in {Ok(h), Err(Crashed), Err(NoSupervisor)}
  {
    assert EvidenceAnchored(w, t);
    var held := EvidenceOf(w, t).handoff;
    if h.research.Some? && held.None? {
      AskKeeps(w, t, h, h.research.value, stop);
    } else {
      assert h.(research := held) == h;
      CheckpointKeeps(w, t, h);
    }
  }

  lemma ConcludeKeeps(v: World, t: Ticket, h: Handed, stop: FinalizeStop)
    requires Inv(v) && FromPlan(v, t, h)
    ensures Inv(Conclude(v, t, h, stop).0) && FromPlan(Conclude(v, t, h, stop).0, t, h)
    ensures Conclude(v, t, h, stop).1 in {Ok(h), Err(Crashed), Err(NoSupervisor)}
  {
    assert EvidenceAnchored(v, t);
    var attributed := RecordAttribution(v, t, h.attribution).value;
    TouchKeeps(v, attributed, t);
    var reflected := RecordPostmortem(attributed, t, h.postmortem).value;
    TouchKeeps(attributed, reflected, t);
    HandOffKeeps(reflected, t, h, stop);
  }

  lemma BindSound(w: World, x: Witness, p: Policy, now: Instant, required: bool, env: Env)
    requires Inv(w)
    ensures Inv(BindStep(w, x, p, now, required, env).0)
  {
    var v := BindStep(w, x, p, now, required, env).0;
    BindKeepsAnchors(w, x, p, now, required, env);
    forall s ensures EvidenceAnchored(v, s) { assert EvidenceAnchored(w, s); }
  }

  /** After a successful binding what the call hands on is what the anchored plan determines. */
  lemma BoundFromPlan(w: World, x: Witness, p: Policy, now: Instant, required: bool, env: Env)
    requires x.ticket in w.resolutions && w.resolutions[x.ticket] == x
    requires BindStep(w, x, p, now, required, env).1.Ok?
    ensures var (v, bound) := BindStep(w, x, p, now, required, env);
            FromPlan(v, x.ticket, HandedBy(x, p, bound.value))
  {
    BindKeepsAnchors(w, x, p, now, required, env);
    SuccessMeansAnchored(w, x, p, now, required, env);
    PlanDeterminesEvidence(x, p, BindStep(w, x, p, now, required, env).1.value);
  }

  /** A finalize keeps the invariant, and hands on what the plan of its ticket determines if it hands on anything. */
  lemma FinalizeKeeps(w: World, t: Ticket, p: Policy, now: Instant, env: Env, stop: FinalizeStop)
    requires Inv(w)
    ensures Inv(FinalizeStep(w, t, p, now, env, stop).0)
    ensures var (v, r) := FinalizeStep(w, t, p, now, env, stop);
            (r.Ok? ==> FromPlan(v, t, r.value)) && r != Err(EvidenceConflict)
  {
    if t in w.resolutions && w.resolutions[t].rewardAvailableAt <= now {
      var x := w.resolutions[t];
      var required := EvidenceOf(w, t).attribution.Some?;
      BindSound(w, x, p, now, required, env);
      BindKeepsAnchors(w, x, p, now, required, env);
      if BindStep(w, x, p, now, required, env).1.Ok? { BoundConcludes(w, x, p, now, required, env, stop); }
    }
  }

  lemma BoundConcludes(
    w: World, x: Witness, p: Policy, now: Instant, required: bool, env: Env, stop: FinalizeStop)
    requires Inv(w) && x.ticket in w.resolutions && w.resolutions[x.ticket] == x
    requires BindStep(w, x, p, now, required, env).1.Ok?
    ensures var (v, bound) := BindStep(w, x, p, now, required, env);
            var (u, r) := Conclude(v, x.ticket, HandedBy(x, p, bound.value), stop);
            Inv(u) && (r.Ok? ==> FromPlan(u, x.ticket, r.value)) && r != Err(EvidenceConflict)
  {
    var (v, bound) := BindStep(w, x, p, now, required, env);
    BindSound(w, x, p, now, required, env);
    BoundFromPlan(w, x, p, now, required, env);
    ConcludeKeeps(v, x.ticket, HandedBy(x, p, bound.value), stop);
  }

  lemma ApplySound(w: World, op: Op)
    requires Inv(w)
    ensures Inv(Apply(w, op))
  {
    var v := Apply(w, op);
    match op {
      case Finalize(t, p, now, env, stop) => FinalizeKeeps(w, t, p, now, env, stop);
      case Bind(x, p, now, requireExisting, env) => BindSound(w, x, p, now, requireExisting, env);
      case _ => forall s ensures EvidenceAnchored(v, s) { assert EvidenceAnchored(w, s); }
    }
  }

  lemma {:induction false} EveryRunKeeps(w: World, ops: seq<Op>)
    requires Inv(w)
    ensures Inv(Run(w, ops)) && Kept(w, Run(w, ops))
    decreases |ops|
  {
    if ops == [] {
    } else {
      ApplySound(w, ops[0]);
      ApplyKeeps(w, ops[0]);
      EveryRunKeeps(Apply(w, ops[0]), ops[1..]);
    }
  }

  /** A successful finalize hands exactly the evidence of the plan that its ticket is anchored to. */
  lemma FinalizeHandsAnchored(w: World, t: Ticket, p: Policy, now: Instant, env: Env, stop: FinalizeStop)
    requires Inv(w) && FinalizeStep(w, t, p, now, env, stop).1.Ok?
    ensures var (v, r) := FinalizeStep(w, t, p, now, env, stop);
            FromPlan(v, t, r.value) && v.anchors[t].id.frozenAt == r.value.attribution.attributedAt
  {
    FinalizeKeeps(w, t, p, now, env, stop);
  }

  /**
   * Frozen plan agreement: over any run of resolutions, bindings and finalize calls with any policies and
   * stops, and any loss or forgery of the sidecar, all successful finalize calls of a ticket hand on
   * identical attribution, postmortem, research request and checkpoint.
   */
  lemma AllFinalizesAgree(
    w: World, ops: seq<Op>, t: Ticket, p: Policy, q: Policy, now: Instant, later: Instant, e: Env, f: Env,
    s: FinalizeStop, u: FinalizeStop)
    requires Inv(w) && FinalizeStep(w, t, p, now, e, s).1.Ok?
    requires var after := Run(FinalizeStep(w, t, p, now, e, s).0, ops); FinalizeStep(after, t, q, later, f, u).1.Ok?
    ensures var after := Run(FinalizeStep(w, t, p, now, e, s).0, ops);
            FinalizeStep(after, t, q, later, f, u).1 == FinalizeStep(w, t, p, now, e, s).1
  {
    var first := FinalizeStep(w, t, p, now, e, s).0;
    var after := Run(first, ops);
    FinalizeKeeps(w, t, p, now, e, s);
    EveryRunKeeps(first, ops);
    FinalizeKeeps(after, t, q, later, f, u);
    ApplyKeeps(after, Finalize(t, q, later, f, u));
  }

  /**
   * What the supervisor once accepted for a ticket is the one request of its plan for ever: a call that
   * stopped before it recorded the handoff sends the identical request again, whoever retries it.
   */
  lemma RequestsAgree(w: World, ops: seq<Op>, t: Ticket, p: Policy, now: Instant, env: Env, stop: FinalizeStop)
    requires Inv(w) && t in w.requests
    requires FinalizeStep(Run(w, ops), t, p, now, env, stop).1.Ok?
    ensures var (v, r) := FinalizeStep(Run(w, ops), t, p, now, env, stop);
            r.value.research == Some(w.requests[t]) && t in v.requests && v.requests[t] == w.requests[t]
  {
    var after := Run(w, ops);
    var (v, r) := FinalizeStep(after, t, p, now, env, stop);
    EveryRunKeeps(w, ops);
    FinalizeKeeps(after, t, p, now, env, stop);
    ApplyKeeps(after, Finalize(t, p, now, env, stop));
    RequestsKept(w, ops + [Finalize(t, p, now, env, stop)], t);
    RunSnoc(w, ops, Finalize(t, p, now, env, stop));
    assert EvidenceAnchored(w, t) && EvidenceAnchored(v, t);
  }

  lemma {:induction false} RunSnoc(w: World, ops: seq<Op>, op: Op)
    ensures Run(w, ops + [op]) == Apply(Run(w, ops), op)
    decreases |ops|
  {
    if ops == [] {
      assert ops + [op] == [op] && [op][1..] == [];
    } else {
      assert (ops + [op])[1..] == ops[1..] + [op];
      RunSnoc(Apply(w, ops[0]), ops[1..], op);
    }
  }

  lemma {:induction false} RequestsKept(w: World, ops: seq<Op>, t: Ticket)
    requires t in w.requests
    ensures t in Run(w, ops).requests
    decreases |ops|
  {
    if ops != [] {
      RequestStays(w, ops[0], t);
      RequestsKept(Apply(w, ops[0]), ops[1..], t);
    }
  }

  lemma RequestStays(w: World, op: Op, t: Ticket)
    requires t in w.requests
    ensures t in Apply(w, op).requests
  {
    match op
    case Bind(x, p, now, requireExisting, env) => BindKeepsAnchors(w, x, p, now, requireExisting, env);
    case Finalize(s, p, now, env, stop) =>
      if s in w.resolutions && w.resolutions[s].rewardAvailableAt <= now {
        var required := EvidenceOf(w, s).attribution.Some?;
        var (v, bound) := BindStep(w, w.resolutions[s], p, now, required, env);
        BindKeepsAnchors(w, w.resolutions[s], p, now, required, env);
        if bound.Ok? { ConcludesOnly(v, s, HandedBy(w.resolutions[s], p, bound.value), stop); }
      }
    case _ =>
  }

  /** Neither the AgentLoop nor the supervisor ever meets conflicting evidence: a retry fails before or repeats it. */
  lemma NoConflictingEvidence(w: World, t: Ticket, p: Policy, now: Instant, env: Env, stop: FinalizeStop)
    requires Inv(w)
    ensures FinalizeStep(w, t, p, now, env, stop).1 != Err(EvidenceConflict)
  {
    FinalizeKeeps(w, t, p, now, env, stop);
  }

  /** A call that stopped after the anchor write is completed by its retry, with the same time. */
  lemma StoppedPlanIsCompleted(w: World, x: Witness, p: Policy, at: Instant, later: Instant, env: Env)
    requires SidecarSound(w.sidecar) && Existing(w.sidecar, x.ticket).None? && AnchorOf(w, x.ticket).None?
    requires x.ticket in w.resolutions && RecordFor(x, p, at).Some? && env.stop && env.raced.None?
    ensures var stopped := BindStep(w, x, p, at, false, env).0;
            BindStep(stopped, x, p, later, true, Env(false, None, None)).1 == Ok(at)
  {
  }

  // ---- When a finalize succeeds, and what it leaves ------------------------------------------------------

  const QUIET := Env(false, None, None)

  /** The time that a plan of the ticket is held for, or else the time of the call. */
  function HeldTime(w: World, t: Ticket, now: Instant): Instant
    requires w.sidecar.Plans?
  {
    if t in w.anchors then w.anchors[t].frozenAt
    else if t in w.sidecar.plans then w.sidecar.plans[t].frozenAt
    else now
  }

  /** Neither durable place holds another plan for the ticket. */
  predicate Agrees(w: World, t: Ticket, plan: Plan)
    requires w.sidecar.Plans?
  {
    && (t in w.anchors ==> w.anchors[t] == Anchor(plan, plan.frozenAt))
    && (t in w.sidecar.plans ==> w.sidecar.plans[t] == SideRecord(plan, plan.semantic, plan.frozenAt))
  }

  predicate Timely(x: Witness, p: Policy, at: Instant) {
    x.rewardAvailableAt <= at && (p.deadline.Some? ==> at <= p.deadline.value)
  }

  /** An undisturbed binding succeeds exactly when no other plan is held and the held or present time is timely. */
  lemma BindsExactly(w: World, x: Witness, p: Policy, now: Instant)
    requires SidecarSound(w.sidecar) && x.ticket in w.resolutions
    ensures var at := HeldTime(w, x.ticket, now);
            BindStep(w, x, p, now, false, QUIET).1.Ok? <==>
            Timely(x, p, at) && Agrees(w, x.ticket, Plan(SemanticOf(x, p), at))
    ensures BindStep(w, x, p, now, false, QUIET).1.Ok? ==>
              BindStep(w, x, p, now, false, QUIET).1.value == HeldTime(w, x.ticket, now)
  {
  }

  /** Requiring a plan that is held already changes nothing. */
  lemma RequiringHeld(w: World, x: Witness, p: Policy, now: Instant, required: bool)
    requires x.ticket in w.anchors
    ensures BindStep(w, x, p, now, required, QUIET) == BindStep(w, x, p, now, false, QUIET)
  {
  }

  /** Everything that one finalize hands on is on record for its ticket. */
  predicate OnRecord(w: World, t: Ticket, h: Handed) {
    EvidenceOf(w, t) == Evidence(Some(h.attribution), Some(h.postmortem), h.research, Some(h.checkpoint))
  }

  lemma ConcludesFully(v: World, t: Ticket, h: Handed)
    requires Inv(v) && FromPlan(v, t, h)
    ensures Conclude(v, t, h, RunOn).1 == Ok(h) && OnRecord(Conclude(v, t, h, RunOn).0, t, h)
    ensures EvidenceOf(v, t).handoff.None? ==> RequestOf(Conclude(v, t, h, RunOn).0, t) in {h.research, RequestOf(v, t)}
    ensures EvidenceOf(v, t).handoff.None? && h.research.Some? ==>
              RequestOf(Conclude(v, t, h, RunOn).0, t) == h.research
  {
    assert EvidenceAnchored(v, t);
  }

  /**
   * An undisturbed finalize of a sound world succeeds exactly when the ticket is resolved, its reward is
   * available, and no other plan is held; it then hands on, and leaves on record, the evidence of that plan.
   */
  lemma FinalizesExactly(w: World, t: Ticket, p: Policy, now: Instant)
    requires Inv(w) && SidecarSound(w.sidecar)
    ensures FinalizeStep(w, t, p, now, QUIET, RunOn).1.Ok? <==>
            && t in w.resolutions && w.resolutions[t].rewardAvailableAt <= now
            && var x, at := w.resolutions[t], HeldTime(w, t, now);
               Timely(x, p, at) && Agrees(w, t, Plan(SemanticOf(x, p), at))
    ensures var (v, r) := FinalizeStep(w, t, p, now, QUIET, RunOn);
            r.Ok? ==> r.value == HandedBy(w.resolutions[t], p, HeldTime(w, t, now)) && OnRecord(v, t, r.value)
  {
    if t in w.resolutions && w.resolutions[t].rewardAvailableAt <= now {
      var x := w.resolutions[t];
      var required := EvidenceOf(w, t).attribution.Some?;
      assert EvidenceAnchored(w, t);
      if required { RequiringHeld(w, x, p, now, required); }
      BindsExactly(w, x, p, now);
      BindSound(w, x, p, now, required, QUIET);
      BindKeepsAnchors(w, x, p, now, required, QUIET);
      if BindStep(w, x, p, now, required, QUIET).1.Ok? {
        var (v, bound) := BindStep(w, x, p, now, required, QUIET);
        BoundFromPlan(w, x, p, now, required, QUIET);
        ConcludesFully(v, t, HandedBy(x, p, bound.value));
      }
    }
  }

  /** What is handed on names the parts of the sealed resolution, one by one. */
  predicate NamesResolution(h: Handed, x: Witness) {
    && h.attribution.environment == x.environment && h.attribution.episode == x.episode
    && h.attribution.transition == x.transition && h.attribution.action == x.action
    && h.attribution.outcome == x.outcome && h.attribution.reward == x.reward
    && h.attribution.rewardValue == x.rewardValue && h.attribution.truth == x.truth
    && h.attribution.simulation == x.simulation
    && h.postmortem.attribution == h.attribution && h.postmortem.transition == x.transition
    && h.checkpoint == x.next
    && forall i :: 0 <= i < |h.attribution.findings| ==> h.attribution.findings[i].evidence == x.bundle
  }

  /** What is handed on carries the policy, with one finding for each of its components, all at one time. */
  predicate CarriesPolicy(h: Handed, p: Policy, at: Instant) {
    && h.attribution.attributedAt == at && h.postmortem.createdAt == at
    && h.postmortem.components == p.components && h.postmortem.summary == p.summary
    && h.postmortem.question == p.question && |h.attribution.findings| == |p.components|
    && (forall i :: 0 <= i < |p.components| ==>
          var f := h.attribution.findings[i];
          f.component == p.components[i] && f.availableAt == at && f.reason == p.reason)
    && (h.research.Some? <==> p.question.Some?)
    && (h.research.Some? ==>
          && h.research.value.postmortem == h.postmortem && Some(h.research.value.statement) == p.question
          && h.research.value.requestedAt == at && h.research.value.budget == p.budget
          && h.research.value.deadline == p.deadline)
  }

  /** The plan that is anchored names the same resolution and policy. */
  predicate PlanNames(s: Semantic, x: Witness, p: Policy) {
    && s.ticket == x.ticket && s.binding == x.binding && s.bundle == x.bundle && s.transition == x.transition
    && s.observation == x.observation && s.action == x.action && s.baseline == x.baseline && s.next == x.next
    && s.summary == p.summary && s.reason == p.reason && s.components == p.components && s.question == p.question
    && s.budget == p.budget && s.deadline == p.deadline
  }

  /** A successful finalize hands on and anchors exactly the parts of the resolution and of the policy. */
  lemma FinalizeHandsResolution(w: World, t: Ticket, p: Policy, now: Instant, env: Env, stop: FinalizeStop)
    requires Inv(w) && FinalizeStep(w, t, p, now, env, stop).1.Ok?
    ensures var (v, r) := FinalizeStep(w, t, p, now, env, stop);
            && t in w.resolutions && NamesResolution(r.value, w.resolutions[t])
            && t in v.anchors && PlanNames(v.anchors[t].id.semantic, w.resolutions[t], p)
            && v.anchors[t].frozenAt == v.anchors[t].id.frozenAt
            && CarriesPolicy(r.value, p, v.anchors[t].frozenAt)
  {
    var (v, r) := FinalizeStep(w, t, p, now, env, stop);
    var x := w.resolutions[t];
    var required := EvidenceOf(w, t).attribution.Some?;
    var (bound, at) := BindStep(w, x, p, now, required, env);
    FinalizeKeeps(w, t, p, now, env, stop);
    FinalizeBindsOnly(w, t, p, now, env, stop);
    SuccessMeansAnchored(w, x, p, now, required, env);
    BindKeepsAnchors(w, x, p, now, required, env);
    PlanDeterminesEvidence(x, p, at.value);
    assert r.value == HandedBy(x, p, at.value);
  }
}
