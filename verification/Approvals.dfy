/** Planning, approving and authorising a repair (driver/remediation.py), the
    decision route's checks (server/main.py) and the binding between a proposal
    row and what a human saw (server/investigations.py). */
module Approvals {
  import opened Wrappers
  import opened Tables

  const APPROVAL_TTL := 900.0

  /** Every field the browser-visible binding covers. `content` has its
      refusalReason blanked: that field is not part of the binding. */
  datatype Binding = Binding(investigation: string, device: string, proposal: string,
                             content: Content, expiresAt: Option<real>)

  /** What is left uninterpreted: the two hashes, the reviewed repair catalogue
      (`build` is None where get or build raises ArgumentError) and the operator
      name the worker's key belongs to. Every theorem holds for every World. */
  datatype World = World(
    sha: Script -> string,
    digest: Binding -> string,
    build: (string, Arguments) -> Option<Script>,
    timeout: string -> int,
    risk: string -> string,
    describes: string -> string,
    driver: string)

  datatype Proposal = Proposal(investigation: string, device: string, id: string, content: Content)

  predicate Actionable(c: Content) {
    c.decision == Proposed && c.scriptSha256.Some? && c.scriptSha256.value != ""
  }

  // ---------- planning ----------

  /** The planner's reply, whatever it is. */
  datatype Choice =
    | Unusable(reason: string)
    | Nothing(reasoning: string)
    | Pick(name: string, arguments: Arguments, reasoning: string, expected: string)

  function NoScript(decision: Decision, reasoning: string, refusal: string): Content {
    Content(decision, None, map[], None, None, reasoning, "", "", "", refusal)
  }

  function Propose(w: World, choice: Choice): Content {
    match choice
    case Unusable(reason) => NoScript(Refused, "", reason)
    case Nothing(reasoning) => NoScript(NoAction, reasoning, "")
    case Pick(name, arguments, reasoning, expected) =>
      match w.build(name, arguments)
      case None => NoScript(Refused, reasoning, "not a permitted repair")
      case Some(script) =>
        Content(Proposed, Some(name), arguments, Some(script), Some(w.sha(script)), reasoning,
                expected, w.risk(name), w.describes(name), "")
  }

  // ---------- approval ----------

  datatype Approval = Approval(proposal: string, scriptSha256: Option<string>, approvedBy: string,
                               device: string, repair: Option<string>, arguments: Arguments,
                               approvedAt: real)

  function Grant(p: Proposal, approvedBy: string, now: real): Approval {
    Approval(p.id, p.content.scriptSha256, approvedBy, p.device,
             Some(if p.content.repair.Some? then p.content.repair.value else ""),
             p.content.arguments, now)
  }

  /** What may be executed: the script, rebuilt from the catalogue. */
  function Authorize(w: World, p: Proposal, approval: Option<Approval>, now: real): Result<Script, string> {
    if !Actionable(p.content) then Failure("nothing to apply")
    else if approval.None? then Failure("no approval")
    else
      var a := approval.value;
      if a.proposal != p.id then Failure("approval is for a different proposal")
      else if a.device != p.device then Failure("approval was granted for a different device")
      else if a.repair != p.content.repair || a.arguments != p.content.arguments then
        Failure("the proposed action changed after it was approved")
      else if now - a.approvedAt > APPROVAL_TTL then Failure("approval has expired")
      else if a.repair.None? || w.build(a.repair.value, a.arguments).None? then
        Failure("approved action is not a valid repair")
      else
        var rebuilt := w.build(a.repair.value, a.arguments).value;
        if a.scriptSha256 != Some(w.sha(rebuilt)) then
          Failure("the approved script does not match the reviewed repair")
        else if p.content.script != Some(rebuilt) then
          Failure("the proposal no longer matches the reviewed repair")
        else Success(rebuilt)
  }

  /** Plan, approve, authorise: what the planner proposed is authorised exactly
      while the approval is fresh, and what runs is what was proposed. */
  lemma ApprovedPlanIsAuthorized(w: World, choice: Choice, i: string, device: string, id: string,
                                 operator: string, at: real, now: real)
    ensures var p := Proposal(i, device, id, Propose(w, choice));
            var result := Authorize(w, p, Some(Grant(p, operator, at)), now);
            && (result.Success? <==> Actionable(p.content) && now - at <= 900.0)
            && (result.Success? ==> p.content.script == Some(result.value))
  {
  }

  /** Whatever the proposal says when it is applied, an approval authorises only
      the action that was shown when it was granted. */
  lemma TamperedProposalIsRefused(w: World, shown: Proposal, later: Proposal, operator: string, at: real, now: real)
    requires shown.content.repair.Some?
    ensures var result := Authorize(w, later, Some(Grant(shown, operator, at)), now);
            result.Success? ==>
              && later.id == shown.id && later.device == shown.device
              && later.content.repair == shown.content.repair
              && later.content.arguments == shown.content.arguments
              && later.content.script == Some(result.value)
              && w.build(shown.content.repair.value, shown.content.arguments) == Some(result.value)
              && shown.content.scriptSha256 == Some(w.sha(result.value))
              && now - at <= 900.0
  {
  }

  /** What authorising demands, whatever the proposal and the approval: exactly that
      there is something to apply, that the approval is for this action as it stands and
      fresh, and that the catalogue still builds the script that was approved and stored. */
  lemma AuthorizedExactly(w: World, p: Proposal, approval: Option<Approval>, now: real, script: Script)
    ensures Authorize(w, p, approval, now) == Success(script)
            <==>
            && p.content.decision == Proposed && p.content.scriptSha256.Some? && p.content.scriptSha256.value != ""
            && approval.Some? && approval.value.proposal == p.id && approval.value.device == p.device
            && approval.value.repair == p.content.repair && approval.value.arguments == p.content.arguments
            && now - approval.value.approvedAt <= 900.0
            && p.content.repair.Some? && w.build(p.content.repair.value, p.content.arguments) == Some(script)
            && approval.value.scriptSha256 == Some(w.sha(script)) && p.content.script == Some(script)
  {
  }

  /** What a plan puts before a human: the repair picked, with the catalogue's script, risk
      and verification for it; or why there is none. */
  lemma ProposedExactly(w: World, choice: Choice)
    ensures var c := Propose(w, choice);
            match choice
            case Unusable(reason) => c.decision == Refused && c.refusalReason == reason && c.script.None?
            case Nothing(reasoning) => c.decision == NoAction && c.reasoning == reasoning && c.script.None?
            case Pick(name, arguments, reasoning, expected) =>
              && c.reasoning == reasoning && c.script == w.build(name, arguments)
              && (c.script.None? ==> c.decision == Refused && c.repair.None?)
              && (c.script.Some? ==>
                    && c.decision == Proposed && c.repair == Some(name) && c.arguments == arguments
                    && c.scriptSha256 == Some(w.sha(c.script.value)) && c.expectedEffect == expected
                    && c.risk == w.risk(name) && c.verifiedBy == w.describes(name) && c.refusalReason == "")
  {
  }

  // ---------- the durable row ----------

  function BindingOf(i: string, device: string, p: string, content: Content, expiresAt: Option<real>): Binding {
    Binding(i, device, p, content.(refusalReason := ""), expiresAt)
  }

  function StoredRow(w: World, i: string, device: string, p: string, content: Content,
                     now: real, createdAt: real): ProposalRow {
    var expiresAt := if Actionable(content) then Some(now + APPROVAL_TTL) else None;
    ProposalRow(i, content, w.digest(BindingOf(i, device, p, content, expiresAt)), createdAt, expiresAt, None)
  }

  function ProposalFromRow(device: string, p: string, row: ProposalRow): Proposal {
    Proposal(row.investigation, device, p, row.content)
  }

  function ApprovalFromRow(device: string, p: string, row: ProposalRow): Approval
    requires row.verdict.Some?
  {
    Approval(p, row.content.scriptSha256, row.verdict.value.decidedBy, device, row.content.repair,
             row.content.arguments, row.verdict.value.decidedAt)
  }

  /** What is stored for a human: the content itself, undecided, bound by its hash with
      everything shown, and open for 900 s exactly if there is something to approve. */
  lemma StoredExactly(w: World, i: string, device: string, p: string, content: Content, now: real, createdAt: real)
    ensures var row := StoredRow(w, i, device, p, content, now, createdAt);
            && row.investigation == i && row.content == content && row.createdAt == createdAt && row.verdict.None?
            && row.expiresAt == (if content.decision == Proposed && content.scriptSha256.Some?
                                    && content.scriptSha256.value != "" then Some(now + 900.0) else None)
            && row.hash == w.digest(Binding(i, device, p, content.(refusalReason := ""), row.expiresAt))
            && HashMatches(w, i, device, p, row)
  {
  }

  /** The approval rebuilt from a decided row is the one granted when it was decided. */
  lemma RowIsGrant(device: string, p: string, row: ProposalRow)
    requires row.verdict.Some? && row.content.repair.Some?
    ensures ApprovalFromRow(device, p, row)
            == Grant(ProposalFromRow(device, p, row), row.verdict.value.decidedBy, row.verdict.value.decidedAt)
  {
  }

  /** The binding recomputed from the durable fields equals the stored one. */
  predicate HashMatches(w: World, i: string, device: string, p: string, row: ProposalRow) {
    w.digest(BindingOf(i, device, p, row.content, row.expiresAt)) == row.hash
  }

  // ---------- a human decision ----------

  datatype DecisionRequest = DecisionRequest(proposal: string, hash: string, device: string, decision: Outcome)

  datatype Judgement =
    | NoActionableProposal
    | BindingChanged
    | Repeat(heal: bool)
    | DifferentDecision
    | NoLongerAwaiting
    | Expired
    | Record

  /** decide_investigation's checks, in order, on what it has read. */
  function Judge(w: World, i: string, device: string, status: Status, proposal: Option<(string, ProposalRow)>,
                 request: DecisionRequest, now: real): Judgement {
    if proposal.None? || proposal.value.1.content.decision != Proposed then NoActionableProposal
    else
      var (p, row) := proposal.value;
      if p != request.proposal || row.hash != request.hash || device != request.device
         || !HashMatches(w, i, device, p, row) then BindingChanged
      else if row.verdict.Some? then
        if row.verdict.value.outcome == request.decision then Repeat(status == AwaitingApproval)
        else DifferentDecision
      else if status != AwaitingApproval then NoLongerAwaiting
      else if request.decision == Approve && (row.expiresAt.None? || now >= row.expiresAt.value) then Expired
      else Record
  }
}
