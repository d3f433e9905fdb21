/** The campaign runtime as an object over its sidecar, the bridge and the AgentLoop evidence. */
module CampaignRuntime {
  import opened Common
  import opened FinalizationPlan

  class PaperCampaignRuntime {
    var resolutions: map<Ticket, Witness>
    var anchors: map<Ticket, Anchor>
    var sidecar: Sidecar
    var evidence: map<Ticket, Evidence>
    var requests: map<Ticket, Research>

    constructor Open(w: World)
      ensures Now() == w
    {
      resolutions, anchors, sidecar := w.resolutions, w.anchors, w.sidecar;
      evidence, requests := w.evidence, w.requests;
    }

    function Now(): World
      reads this
    {
      World(resolutions, anchors, sidecar, evidence, requests)
    }

    /** The bridge's write-once anchor. */
    method BindCampaignPlanAnchor(t: Ticket, anchor: Anchor) returns (error: Option<PlanError>)
      modifies this`anchors
      ensures error.None? <==> t in resolutions && (t in old(anchors) ==> old(anchors)[t] == anchor)
      ensures anchors == if error.None? then old(anchors)[t := anchor] else old(anchors)
      ensures match BindAnchor(old(Now()), t, anchor)
              case Ok(w) => error == None && Now() == w
              case Err(e) => error == Some(e) && Now() == old(Now())
    {
      if t !in resolutions { return Some(NotResolved); }
      if t in anchors {
        if anchors[t] != anchor { return Some(AnchorConflict); }
        return None;
      }
      anchors := anchors[t := anchor];
      return None;
    }

    /** Re-reads the sidecar and records the plan there unless another plan appeared. */
    method WritePlan(t: Ticket, record: SideRecord, env: Env) returns (r: Result<Instant, PlanError>)
      modifies this`sidecar
      ensures var read := if env.swapped.Some? then env.swapped.value else old(sidecar);
              && (r.Ok? <==> SidecarSound(read) && (t in read.plans ==> read.plans[t] == record))
              && sidecar == if r.Ok? then Plans(read.plans[t := record]) else read
      ensures r.Ok? ==> r.value == record.frozenAt
      ensures (Now(), r) == RecordPlan(Swap(old(Now()), env), t, record)
    {
      if env.swapped.Some? { sidecar := env.swapped.value; }
      if !SidecarSound(sidecar) { return Err(BadSidecar); }
      var concurrent := Existing(sidecar, t);
      if concurrent.Some? && concurrent.value != record { return Err(PlanConflict); }
      if concurrent.None? { sidecar := Plans(sidecar.plans[t := record]); }
      return Ok(record.frozenAt);
    }

    /** A recorded plan must be this very plan, and is anchored again. */
    method BindExistingPlan(x: Witness, p: Policy, existing: SideRecord) returns (r: Result<Instant, PlanError>)
      modifies this`anchors
      ensures (Now(), r) == BindExisting(old(Now()), x, p, existing)
    {
      if existing.semantic != SemanticOf(x, p) { return Err(PlanConflict); }
      var expected := RecordFor(x, p, existing.frozenAt);
      if expected.None? { return Err(TooEarly); }
      if existing != expected.value { return Err(PlanInconsistent); }
      var error := BindCampaignPlanAnchor(x.ticket, Anchor(expected.value.id, expected.value.frozenAt));
      if error.Some? { return Err(error.value); }
      return Ok(expected.value.frozenAt);
    }

    /** The anchor is published before a new plan is recorded. */
    method BindNewPlan(x: Witness, p: Policy, at: Instant, env: Env) returns (r: Result<Instant, PlanError>)
      modifies this`anchors, this`sidecar
      ensures (Now(), r) == BindNew(old(Now()), x, p, at, env)
    {
      var record := RecordFor(x, p, at);
      if record.None? { return Err(TooEarly); }
      var error := BindCampaignPlanAnchor(x.ticket, Anchor(record.value.id, record.value.frozenAt));
      if error.Some? { return Err(error.value); }
      if env.stop { return Err(Crashed); }
      r := WritePlan(x.ticket, record.value, env);
    }

    /** Sidecar first, but never as the only authority: on success both places hold this very plan. */
    method BindFinalizationPlan(x: Witness, p: Policy, at: Instant, requireExisting: bool, env: Env)
      returns (r: Result<Instant, PlanError>)
      modifies this`anchors, this`sidecar
      ensures Converges(Now(), x, p, r)
      ensures AnchorsKept(old(Now()), Now()) && OwnAnchor(old(Now()), Now(), x.ticket)
      ensures (Now(), r) == BindStep(old(Now()), x, p, at, requireExisting, env)
    {
      BindKeepsAnchors(Now(), x, p, at, requireExisting, env);
      SuccessConverges(Now(), x, p, at, requireExisting, env);
      if !SidecarSound(sidecar) { return Err(BadSidecar); }
      var existing := Existing(sidecar, x.ticket);
      var anchor := AnchorOf(Now(), x.ticket);
      if env.raced.Some? && x.ticket in resolutions && x.ticket !in anchors {
        anchors := anchors[x.ticket := env.raced.value];
      }
      if existing.Some? {
        r := BindExistingPlan(x, p, existing.value);
        return;
      }
      if anchor.Some? {
        var frozen := RecordFor(x, p, anchor.value.frozenAt);
        if frozen.None? { return Err(TooEarly); }
        if frozen.value.id != anchor.value.id { return Err(AnchorConflict); }
        r := WritePlan(x.ticket, frozen.value, env);
        return;
      }
      if requireExisting { return Err(AnchorMissing); }
      r := BindNewPlan(x, p, at, env);
    }

    /** The research handoff, at most one request for a ticket, and then the checkpoint. */
    method HandOffResearch(t: Ticket, h: Handed, stop: FinalizeStop) returns (r: Result<Handed, PlanError>)
      modifies this`evidence, this`requests
      ensures (Now(), r) == HandOff(old(Now()), t, h, stop)
    {
      var research := EvidenceOf(Now(), t).handoff;
      if h.research.Some? && research.None? {
        if stop == Unsupervised { return Err(NoSupervisor); }
        research := h.research;
        if t in requests && requests[t] != research.value { return Err(EvidenceConflict); }
        requests := requests[t := research.value];
        if stop == AfterRequest { return Err(Crashed); }
        evidence := evidence[t := EvidenceOf(Now(), t).(handoff := research)];
      }
      if stop == AfterHandoff { return Err(Crashed); }
      evidence := evidence[t := EvidenceOf(Now(), t).(checkpoint := Some(h.checkpoint))];
      return Ok(h.(research := research));
    }

    /** Attribution, postmortem, research handoff and checkpoint, in the order of the AgentLoop phases. */
    method ConcludeTicket(t: Ticket, h: Handed, stop: FinalizeStop) returns (r: Result<Handed, PlanError>)
      modifies this`evidence, this`requests
      ensures (Now(), r) == Conclude(old(Now()), t, h, stop)
    {
      var held := EvidenceOf(Now(), t);
      if held.attribution.Some? && held.attribution.value != h.attribution { return Err(EvidenceConflict); }
      evidence := evidence[t := held.(attribution := Some(h.attribution))];
      if stop == AfterAttribution { return Err(Crashed); }
      held := EvidenceOf(Now(), t);
      if held.postmortem.Some? && held.postmortem.value != h.postmortem { return Err(EvidenceConflict); }
      evidence := evidence[t := held.(postmortem := Some(h.postmortem))];
      if stop == AfterPostmortem { return Err(Crashed); }
      r := HandOffResearch(t, h, stop);
    }

    /** Converges one resolved ticket through its plan, attribution, postmortem, research and checkpoint. */
    method FinalizeTicket(t: Ticket, p: Policy, now: Instant, env: Env, stop: FinalizeStop)
      returns (r: Result<Handed, PlanError>)
      modifies this
      ensures (Now(), r) == FinalizeStep(old(Now()), t, p, now, env, stop)
    {
      if t !in resolutions { return Err(NotResolved); }
      var x := resolutions[t];
      if now < x.rewardAvailableAt { return Err(TooEarly); }
      var attributed := EvidenceOf(Now(), t).attribution.Some?;
      var bound := BindFinalizationPlan(x, p, now, attributed, env);
      if bound.Err? { return Err(bound.error); }
      if stop == AfterPlan { return Err(Crashed); }
      var findings := BuildFindings(x, p, bound.value);
      var attribution := Attribution(
        x.environment, x.episode, x.transition, x.action, x.outcome, x.reward, x.rewardValue, x.truth, x.simulation,
        bound.value, findings);
      var postmortem := PostmortemOf(attribution, x, p, bound.value);
      var research := ResearchOf(postmortem, p, bound.value);
      r := ConcludeTicket(t, Handed(attribution, postmortem, research, x.next), stop);
    }
  }

  /** One UNKNOWN finding for each unresolved component, in order. */
  method BuildFindings(x: Witness, p: Policy, at: Instant) returns (findings: seq<Finding>)
    ensures findings == FindingsOf(x, p.reason, p.components, at)
  {
    findings := [];
    for i := 0 to |p.components|
      invariant |findings| == i
      invariant forall k :: 0 <= k < i ==> findings[k] == Finding(p.components[k], x.bundle, at, p.reason)
    {
      findings := findings + [Finding(p.components[i], x.bundle, at, p.reason)];
    }
    assert findings == FindingsOf(x, p.reason, p.components, at);
  }
}
