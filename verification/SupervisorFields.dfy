/** Every field of a connector, told by the history of calls alone: each is what the last accepted
    call that writes it made it. And what a call answers, told by the state it meets. */
module SupervisorFields {

  import opened Wrappers
  import opened Connectors
  import opened Supervisor

  // ------------------------------------------------------------- what a call is about

  /** The last call of the history was accepted for the connector, other than by a restore. */
  predicate EndsOn(ops: seq<Op>, id: string)
    requires ops != []
  {
    var op := ops[|ops| - 1];
    && LastReply(ops).Accepted?
    && ((op.Register? && op.input.connectorId == id) || (OnConnector(op) && op.id == id))
  }

  /** The last call of the history created the connector. */
  predicate EndsInCreation(ops: seq<Op>, id: string)
    requires ops != []
  {
    EndsOn(ops, id) && ops[|ops| - 1].Register? && LastReply(ops).created
  }

  /** The connector a restore at the end of the history brought, if it brought one. */
  function Brings(ops: seq<Op>, id: string): Option<Connector>
    requires ops != []
  {
    var op := ops[|ops| - 1];
    if op.Restore? && id in ById(op.items) then Some(ById(op.items)[id]) else None
  }

  // ------------------------------------------------------------- the fields

  /** The reported health after a heartbeat; registered after a creation, restart or re-enable;
      disabled after a disable; and after a failure what the tally of failures says. */
  function StatusTold(ops: seq<Op>, id: string): Status {
    if ops == [] then Registered
    else
      var op, init := ops[|ops| - 1], ops[..|ops| - 1];
      if Brings(ops, id).Some? then Brings(ops, id).value.status
      else if !EndsOn(ops, id) then StatusTold(init, id)
      else
        match op
        case Register(_, _) => if LastReply(ops).created then Registered else StatusTold(init, id)
        case ReportHealth(_, health, _) => health
        case ReportFailure(_, _, _) => if Tally(ops, id) >= 5 then Failed else BackingOff
        case Restart(_, _) => Registered
        case Disable(_, _, _) => Disabled
        case ReEnable(_, _) => Registered
  }

  /** Set by a failure below the threshold, cleared by everything else but a re-enable and a
      re-registration. */
  function BackoffTold(ops: seq<Op>, id: string): int {
    if ops == [] then 0
    else
      var op, init := ops[|ops| - 1], ops[..|ops| - 1];
      if Brings(ops, id).Some? then Brings(ops, id).value.backoffSeconds
      else if !EndsOn(ops, id) || op.ReEnable? || (op.Register? && !LastReply(ops).created) then BackoffTold(init, id)
      else if op.ReportFailure? && 1 <= Tally(ops, id) < 5 then 5 * Pow2(Tally(ops, id) - 1)
      else 0
  }

  function NextRestartTold(ops: seq<Op>, id: string): Option<int> {
    if ops == [] then None
    else
      var op, init := ops[|ops| - 1], ops[..|ops| - 1];
      if Brings(ops, id).Some? then Brings(ops, id).value.nextRestartAt
      else if !EndsOn(ops, id) || op.ReEnable? || (op.Register? && !LastReply(ops).created) then NextRestartTold(init, id)
      else if op.ReportFailure? && Tally(ops, id) < 5 then Some(op.now + BackoffTold(ops, id) * SECOND)
      else None
  }

  /** The time of the last heartbeat since the connector was created or brought back. */
  function HeartbeatTold(ops: seq<Op>, id: string): Option<int> {
    if ops == [] then None
    else
      var op, init := ops[|ops| - 1], ops[..|ops| - 1];
      if Brings(ops, id).Some? then Brings(ops, id).value.lastHeartbeatAt
      else if EndsInCreation(ops, id) then None
      else if EndsOn(ops, id) && op.ReportHealth? then Some(op.now)
      else HeartbeatTold(init, id)
  }

  function FailureReasonTold(ops: seq<Op>, id: string): string {
    if ops == [] then ""
    else
      var op, init := ops[|ops| - 1], ops[..|ops| - 1];
      if Brings(ops, id).Some? then Brings(ops, id).value.lastFailureReason
      else if EndsInCreation(ops, id) then ""
      else if EndsOn(ops, id) && op.ReportFailure? then op.reason
      else FailureReasonTold(init, id)
  }

  function DisabledReasonTold(ops: seq<Op>, id: string): string {
    if ops == [] then ""
    else
      var op, init := ops[|ops| - 1], ops[..|ops| - 1];
      if Brings(ops, id).Some? then Brings(ops, id).value.disabledReason
      else if EndsInCreation(ops, id) then ""
      else if EndsOn(ops, id) && op.Disable? then op.reason
      else if EndsOn(ops, id) && op.ReEnable? then ""
      else DisabledReasonTold(init, id)
  }

  /** The accepted restarts since the connector was created or brought back. */
  function RestartsTold(ops: seq<Op>, id: string): int {
    if ops == [] then 0
    else
      var op, init := ops[|ops| - 1], ops[..|ops| - 1];
      if Brings(ops, id).Some? then Brings(ops, id).value.restartCount
      else if EndsInCreation(ops, id) then 0
      else RestartsTold(init, id) + if EndsOn(ops, id) && op.Restart? then 1 else 0
  }

  function LastRestartTold(ops: seq<Op>, id: string): Option<int> {
    if ops == [] then None
    else
      var op, init := ops[|ops| - 1], ops[..|ops| - 1];
      if Brings(ops, id).Some? then Brings(ops, id).value.lastRestartAt
      else if EndsInCreation(ops, id) then None
      else if EndsOn(ops, id) && op.Restart? then Some(op.now)
      else LastRestartTold(init, id)
  }

  /** What a registration, first or repeated, last said. */
  function KindTold(ops: seq<Op>, id: string): string {
    if ops == [] then ""
    else
      var op, init := ops[|ops| - 1], ops[..|ops| - 1];
      if Brings(ops, id).Some? then Brings(ops, id).value.kind
      else if EndsOn(ops, id) && op.Register? then op.input.kind
      else KindTold(init, id)
  }

  function NameTold(ops: seq<Op>, id: string): string {
    if ops == [] then ""
    else
      var op, init := ops[|ops| - 1], ops[..|ops| - 1];
      if Brings(ops, id).Some? then Brings(ops, id).value.displayName
      else if EndsOn(ops, id) && op.Register? then op.input.displayName
      else NameTold(init, id)
  }

  /** A repeated registration without a tenant leaves the tenant. */
  function TenantTold(ops: seq<Op>, id: string): string {
    if ops == [] then ""
    else
      var op, init := ops[|ops| - 1], ops[..|ops| - 1];
      if Brings(ops, id).Some? then Brings(ops, id).value.tenantId
      else if EndsInCreation(ops, id) || (EndsOn(ops, id) && op.Register? && op.input.tenantId != "") then op.input.tenantId
      else TenantTold(init, id)
  }

  /** A repeated registration without secret references leaves them. */
  function SecretsTold(ops: seq<Op>, id: string): seq<string> {
    if ops == [] then []
    else
      var op, init := ops[|ops| - 1], ops[..|ops| - 1];
      if Brings(ops, id).Some? then Brings(ops, id).value.secretRefs
      else if EndsOn(ops, id) && op.Register? && op.input.secretRefs.Some? then Cleaned(op.input.secretRefs.value)
      else if EndsInCreation(ops, id) then []
      else SecretsTold(init, id)
  }

  function CreatedTold(ops: seq<Op>, id: string): int {
    if ops == [] then 0
    else
      var op, init := ops[|ops| - 1], ops[..|ops| - 1];
      if Brings(ops, id).Some? then Brings(ops, id).value.createdAt
      else if EndsInCreation(ops, id) then op.now
      else CreatedTold(init, id)
  }

  /** The time of the last accepted call for the connector. */
  function UpdatedTold(ops: seq<Op>, id: string): int {
    if ops == [] then 0
    else
      var op, init := ops[|ops| - 1], ops[..|ops| - 1];
      if Brings(ops, id).Some? then Brings(ops, id).value.updatedAt
      else if EndsOn(ops, id) then op.now
      else UpdatedTold(init, id)
  }

  /** Brought by the last restore, or created since. */
  predicate Known(ops: seq<Op>, id: string) {
    ops != [] &&
    var op, init := ops[|ops| - 1], ops[..|ops| - 1];
    if op.Restore? then Brings(ops, id).Some? else EndsInCreation(ops, id) || Known(init, id)
  }

  /** The connector as the history tells it. */
  function Told(ops: seq<Op>, id: string): Connector {
    Connector(TenantTold(ops, id), id, KindTold(ops, id), NameTold(ops, id), StatusTold(ops, id), DisabledReasonTold(ops, id),
              SecretsTold(ops, id), Tally(ops, id), RestartsTold(ops, id), BackoffTold(ops, id), NextRestartTold(ops, id),
              LastRestartTold(ops, id), HeartbeatTold(ops, id), FailureReasonTold(ops, id), CreatedTold(ops, id), UpdatedTold(ops, id))
  }

  // ------------------------------------------------------------- the theorem

  /** The connector is there exactly when the history tells so, and is what it tells. */
  ghost predicate AsTold(ops: seq<Op>, id: string) {
    && (id in Run(ops).byId <==> Known(ops, id))
    && (id in Run(ops).byId ==> Run(ops).byId[id] == Told(ops, id))
  }

  lemma RestoredAsTold(ops: seq<Op>, id: string)
    requires ops != [] && ops[|ops| - 1].Restore?
    ensures AsTold(ops, id)
  {
    var items := ops[|ops| - 1].items;
    assert Run(ops).byId == ById(items);
    FailureCountIsTally(ops, id);
    ByIdExact(items);
  }

  /** What the last call did to the connector, when it was not a restore and not for it. */
  lemma ElsewhereAsTold(ops: seq<Op>, id: string)
    requires ops != [] && !ops[|ops| - 1].Restore? && !EndsOn(ops, id) && AsTold(ops[..|ops| - 1], id)
    ensures AsTold(ops, id)
  {
    var init, op := ops[..|ops| - 1], ops[|ops| - 1];
    Untouched(Run(init), op, id);
    FailureCountIsTally(ops, id);
    FailureCountIsTally(init, id);
  }

  lemma Untouched(r: Registry, op: Op, id: string)
    requires !op.Restore?
    requires !(Apply(r, op).reply.Accepted?
               && ((op.Register? && op.input.connectorId == id) || (OnConnector(op) && op.id == id)))
    ensures id in Apply(r, op).registry.byId <==> id in r.byId
    ensures id in r.byId ==> Apply(r, op).registry.byId[id] == r.byId[id]
  {
  }

  lemma RegisteredAsTold(ops: seq<Op>, id: string)
    requires ops != [] && ops[|ops| - 1].Register? && EndsOn(ops, id) && AsTold(ops[..|ops| - 1], id)
    ensures AsTold(ops, id)
  {
    var init, op := ops[..|ops| - 1], ops[|ops| - 1];
    FailureCountIsTally(ops, id);
    RegisterOutcome(Run(init), op);
  }

  lemma RegisterOutcome(r: Registry, op: Op)
    requires op.Register? && Apply(r, op).reply.Accepted?
    ensures var id, after := op.input.connectorId, Apply(r, op).registry.byId;
            && (Apply(r, op).reply.created <==> id !in r.byId)
            && after == r.byId[id := if id in r.byId then Updated(r.byId[id], op.input, op.now) else Created(op.input, op.now)]
  {
  }

  lemma ChangedOutcome(r: Registry, op: Op)
    requires OnConnector(op) && Apply(r, op).reply.Accepted?
    ensures op.id in r.byId && Apply(r, op).registry.byId == r.byId[op.id := Transition(r.byId[op.id], op)]
    ensures !Apply(r, op).reply.created
  {
  }

  lemma FailedAsTold(ops: seq<Op>, id: string)
    requires ops != [] && ops[|ops| - 1].ReportFailure? && EndsOn(ops, id) && AsTold(ops[..|ops| - 1], id)
    ensures AsTold(ops, id)
  {
    ChangedOutcome(Run(ops[..|ops| - 1]), ops[|ops| - 1]);
    FailureCountIsTally(ops, id);
    BreakerFollowsTally(ops, id);
  }

  lemma ChangedAsTold(ops: seq<Op>, id: string)
    requires ops != [] && OnConnector(ops[|ops| - 1]) && !ops[|ops| - 1].ReportFailure? && EndsOn(ops, id)
    requires AsTold(ops[..|ops| - 1], id)
    ensures AsTold(ops, id)
  {
    ChangedOutcome(Run(ops[..|ops| - 1]), ops[|ops| - 1]);
    FailureCountIsTally(ops, id);
  }

  /** After any history, restores of any items included, each connector is there exactly when the
      history tells so, and every field of it is what the last accepted call that writes it made it. */
  lemma {:induction false} ConnectorIsAsTold(ops: seq<Op>, id: string)
    ensures id in Run(ops).byId <==> Known(ops, id)
    ensures id in Run(ops).byId ==> Run(ops).byId[id] == Told(ops, id)
  {
    if ops != [] {
      ConnectorIsAsTold(ops[..|ops| - 1], id);
      var op := ops[|ops| - 1];
      if op.Restore? {
        RestoredAsTold(ops, id);
      } else if !EndsOn(ops, id) {
        ElsewhereAsTold(ops, id);
      } else if op.Register? {
        RegisteredAsTold(ops, id);
      } else if op.ReportFailure? {
        FailedAsTold(ops, id);
      } else {
        ChangedAsTold(ops, id);
      }
    }
  }

  // ------------------------------------------------------------- answers

  /** Why a call is refused, if it is: bad arguments first, then a missing connector, then a
      disabled one. */
  ghost predicate Answer(r: Registry, op: Op, reply: Reply) {
    match op
    case Restore(_) => reply.Restored?
    case Register(input, _) =>
      && (reply == Refused(ConnectorIdRequired) <==> input.connectorId == "")
      && (reply == Refused(ConnectorKindRequired) <==> input.connectorId != "" && input.kind == "")
      && (reply.Accepted? <==> input.connectorId != "" && input.kind != "")
      && (reply.Accepted? ==> (reply.created <==> input.connectorId !in r.byId))
    case ReportHealth(id, health, _) =>
      && (reply == Refused(InvalidConnectorHealth) <==> health != Healthy && health != Degraded)
      && RefusedOrNot(r, id, reply, health == Healthy || health == Degraded)
    case ReportFailure(id, reason, _) =>
      && (reply == Refused(ConnectorFailureRequired) <==> reason == "")
      && RefusedOrNot(r, id, reply, reason != "")
    case Restart(id, _) => RefusedOrNot(r, id, reply, true)
    case Disable(id, _, _) => (reply.Accepted? || reply == Refused(ConnectorNotFound))
                              && (reply.Accepted? <==> id in r.byId)
    case ReEnable(id, _) => (reply.Accepted? || reply == Refused(ConnectorNotFound))
                            && (reply.Accepted? <==> id in r.byId)
  }

  predicate RefusedOrNot(r: Registry, id: string, reply: Reply, proper: bool) {
    && (reply == Refused(ConnectorNotFound) <==> proper && id !in r.byId)
    && (reply == Refused(ConnectorDisabled) <==> proper && id in r.byId && r.byId[id].status == Disabled)
    && (reply.Accepted? <==> proper && id in r.byId && r.byId[id].status != Disabled)
  }

  /** What every call answers, and that a refused call changes nothing; an accepted one answers
      with the connector as it now is; and the order grows at its end by what is created. */
  lemma CallsAnswer(r: Registry, op: Op)
    ensures Answer(r, op, Apply(r, op).reply)
    ensures Apply(r, op).reply.Refused? ==> Apply(r, op).registry == r
    ensures Apply(r, op).reply.Accepted? ==>
              var c := Apply(r, op).reply.connector;
              var id := if op.Register? then op.input.connectorId else if op.Restore? then "" else op.id;
              id in Apply(r, op).registry.byId && Apply(r, op).registry.byId[id] == c
    ensures Apply(r, op).registry.order ==
              if op.Restore? then Ids(op.items)
              else if op.Register? && Apply(r, op).reply.Accepted? && Apply(r, op).reply.created then r.order + [op.input.connectorId]
              else r.order
  {
  }

  /** Inbound traffic is let through exactly for a known connector of the tenant, if one is
      named, that is not disabled. */
  lemma InboundReadyIff(r: Registry, id: string, tenantId: string)
    ensures InboundReady(r, id, tenantId).Success? <==>
      id in r.byId && (tenantId == "" || r.byId[id].tenantId == tenantId) && r.byId[id].status != Disabled
    ensures InboundReady(r, id, tenantId).Success? ==> InboundReady(r, id, tenantId).value == r.byId[id]
    ensures InboundReady(r, id, tenantId) == Failure(ConnectorDisabled) <==>
      id in r.byId && (tenantId == "" || r.byId[id].tenantId == tenantId) && r.byId[id].status == Disabled
  {
  }
}
