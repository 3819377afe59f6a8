/** What the management layer shows of a connector: its state, freshness, eligibility and next
    action, derived from the connector and its newest diagnostic. */
module Projections {

  import opened Wrappers
  import C = Connectors

  datatype ManagementState = Ready | Disabled | Degraded | Unavailable | ActionRequired

  function StateName(state: ManagementState): string {
    match state
    case Ready => "ready"
    case Disabled => "disabled"
    case Degraded => "degraded"
    case Unavailable => "unavailable"
    case ActionRequired => "action-required"
  }

  datatype LifecycleState =
    | Configured
    | LifecycleDisabled
    | Starting
    | LifecycleHealthy
    | LifecycleDegraded
    | LifecycleFailed
    | PermissionBlocked
    | RateLimited
    | UnsupportedLifecycle

  datatype ReasonCode =
    | AuthMissing
    | PermissionMissing
    | RateLimitReached
    | ProviderUnavailable
    | NetworkFailed
    | UnsupportedCapability
    | BlockedRoute
    | DuplicateInbound
    | ReplyFailed
    | UnknownConnectorFailure

  datatype RemediationOwner = User | Admin | Operator | Provider | NoneRequired

  datatype Diagnostic = Diagnostic(
    status: LifecycleState,
    reasonCode: ReasonCode,
    remediationOwner: RemediationOwner,
    evidenceTimestamp: int)

  datatype Freshness = Fresh | Stale

  datatype ActionKind = Repair | Reconnect | RouteRevalidate | DisableConnector | ReEnable

  datatype NextAction = NextAction(
    kind: ActionKind,
    reasonCode: Option<ReasonCode>,
    remediationOwner: Option<RemediationOwner>)

  /** The health shown is the diagnostic's status when there is one, else the connector's. */
  datatype Health = OfDiagnostic(lifecycle: LifecycleState) | OfConnector(status: C.Status)

  datatype Projection = Projection(
    connectorId: string,
    connectorKind: string,
    displayName: string,
    enablementState: ManagementState,
    healthStatus: Health,
    freshness: Freshness,
    deliveryEligible: bool,
    nextAction: Option<NextAction>,
    updatedAt: int)

  function StateFor(c: C.Connector, diagnostic: Option<Diagnostic>): ManagementState {
    var fallback :=
      match c.status
      case Healthy => Ready
      case Registered => Ready
      case Degraded => Degraded
      case BackingOff => Degraded
      case Failed => ActionRequired
      case Disabled => Disabled;
    if c.status == C.Disabled || diagnostic.None? then fallback
    else
      match diagnostic.value.status
      case PermissionBlocked => ActionRequired
      case LifecycleFailed => ActionRequired
      case RateLimited => Unavailable
      case LifecycleDegraded => Degraded
      case UnsupportedLifecycle => Degraded
      case _ => fallback
  }

  /** Stale at the epoch or when older than fifteen minutes. */
  function FreshnessAt(evidence: int, now: int): Freshness {
    if evidence == 0 || now - evidence > 15 * 60 * C.SECOND then Stale else Fresh
  }

  function ActionFor(d: Diagnostic): ActionKind {
    match d.reasonCode
    case AuthMissing => Reconnect
    case PermissionMissing => Reconnect
    case BlockedRoute => RouteRevalidate
    case UnsupportedCapability => DisableConnector
    case _ => Repair
  }

  function Project(c: C.Connector, diagnostic: Option<Diagnostic>, now: int): Projection {
    var state := StateFor(c, diagnostic);
    var action :=
      match diagnostic
      case Some(d) =>
        if state == Ready then None
        else Some(NextAction(ActionFor(d), Some(d.reasonCode), Some(d.remediationOwner)))
      case None =>
        if state == Disabled then Some(NextAction(ReEnable, None, None)) else None;
    Projection(
      c.connectorId,
      c.kind,
      c.displayName,
      state,
      match diagnostic case Some(d) => OfDiagnostic(d.status) case None => OfConnector(c.status),
      match diagnostic case Some(d) => FreshnessAt(d.evidenceTimestamp, now) case None => Stale,
      state == Ready,
      action,
      c.updatedAt)
  }

  // ----------------------------------------------------- what a projection tells

  /** No diagnostic, or one that reports no trouble. */
  predicate Calm(d: Option<Diagnostic>) {
    d.Some? ==> d.value.status in {Configured, LifecycleDisabled, Starting, LifecycleHealthy}
  }

  predicate Reports(d: Option<Diagnostic>, states: set<LifecycleState>) {
    d.Some? && d.value.status in states
  }

  /** When a connector is in which management state: disabled above all; then what a diagnostic
      reports; and without trouble reported what the connector's own status says. */
  predicate StateTells(state: ManagementState, status: C.Status, d: Option<Diagnostic>) {
    && (state == Disabled <==> status == C.Disabled)
    && (state == Ready <==> (status == C.Healthy || status == C.Registered) && Calm(d))
    && (state == Unavailable <==> status != C.Disabled && Reports(d, {RateLimited}))
    && (state == ActionRequired <==>
          status != C.Disabled && (Reports(d, {PermissionBlocked, LifecycleFailed}) || (status == C.Failed && Calm(d))))
    && (state == Degraded <==>
          status != C.Disabled
          && (Reports(d, {LifecycleDegraded, UnsupportedLifecycle}) || ((status == C.Degraded || status == C.BackingOff) && Calm(d))))
  }

  /** The next action: none for a ready connector; re-enabling for a disabled one without a
      diagnostic; else what the diagnostic's reason asks for. */
  predicate ActionTells(action: Option<NextAction>, state: ManagementState, d: Option<Diagnostic>) {
    && (action == None <==> state == Ready || (d == None && state != Disabled))
    && (action.Some? && d == None ==> action.value == NextAction(ReEnable, None, None))
    && (action.Some? && d.Some? ==>
          var reason := d.value.reasonCode;
          && action.value.reasonCode == Some(reason) && action.value.remediationOwner == Some(d.value.remediationOwner)
          && (action.value.kind == Reconnect <==> reason == AuthMissing || reason == PermissionMissing)
          && (action.value.kind == RouteRevalidate <==> reason == BlockedRoute)
          && (action.value.kind == DisableConnector <==> reason == UnsupportedCapability)
          && action.value.kind != ReEnable)
  }

  /** Everything a projection shows, told by the connector, its newest diagnostic and the time:
      eligible for delivery when healthy or registered with no trouble reported; fresh when there
      is evidence that is at most fifteen minutes old. */
  predicate Tells(p: Projection, c: C.Connector, d: Option<Diagnostic>, now: int) {
    && p.connectorId == c.connectorId && p.connectorKind == c.kind && p.displayName == c.displayName && p.updatedAt == c.updatedAt
    && StateTells(p.enablementState, c.status, d)
    && (p.deliveryEligible <==> (c.status == C.Healthy || c.status == C.Registered) && Calm(d))
    && p.healthStatus == (if d.Some? then OfDiagnostic(d.value.status) else OfConnector(c.status))
    && (p.freshness == Fresh <==>
          d.Some? && d.value.evidenceTimestamp != 0 && now - d.value.evidenceTimestamp <= 900_000_000_000)
    && ActionTells(p.nextAction, p.enablementState, d)
  }

  lemma StateForTells(c: C.Connector, d: Option<Diagnostic>, state: ManagementState)
    ensures StateTells(state, c.status, d) <==> state == StateFor(c, d)
  {
  }

  lemma ActionForTells(c: C.Connector, d: Option<Diagnostic>, now: int, action: Option<NextAction>)
    ensures ActionTells(action, StateFor(c, d), d) <==> action == Project(c, d, now).nextAction
  {
  }

  /** A projection is exactly what tells this of the connector. */
  lemma ProjectTells(p: Projection, c: C.Connector, d: Option<Diagnostic>, now: int)
    ensures p == Project(c, d, now) <==> Tells(p, c, d, now)
  {
    StateForTells(c, d, p.enablementState);
    ActionForTells(c, d, now, p.nextAction);
  }

  // ------------------------------------------------------- the newest diagnostic

  function Latest(items: seq<Diagnostic>): Option<Diagnostic> {
    if items == [] then None
    else
      var earlier, last := Latest(items[..|items| - 1]), items[|items| - 1];
      if earlier.None? || last.evidenceTimestamp > earlier.value.evidenceTimestamp then Some(last) else earlier
  }

  /** `latest_diagnostic`. */
  method LatestDiagnostic(items: seq<Diagnostic>) returns (latest: Option<Diagnostic>)
    ensures latest == Latest(items)
  {
    if items == [] {
      return None;
    }
    var newest := items[0];
    assert items[..1][..0] == [] && items[..1] == [items[0]];
    for i := 1 to |items|
      invariant Latest(items[..i]) == Some(newest)
    {
      assert items[..i + 1][..i] == items[..i];
      if items[i].evidenceTimestamp > newest.evidenceTimestamp {
        newest := items[i];
      }
    }
    assert items[..|items|] == items;
    return Some(newest);
  }

  /** The newest evidence, and the first of several equally new ones. */
  lemma {:induction false} LatestIsFirstMaximum(items: seq<Diagnostic>) returns (k: nat)
    requires items != []
    ensures k < |items| && Latest(items) == Some(items[k])
    ensures forall i :: 0 <= i < |items| ==> items[i].evidenceTimestamp <= items[k].evidenceTimestamp
    ensures forall i :: 0 <= i < k ==> items[i].evidenceTimestamp < items[k].evidenceTimestamp
  {
    var n := |items| - 1;
    var init := items[..n];
    if n == 0 {
      k := 0;
    } else {
      k := LatestIsFirstMaximum(init);
      assert forall i :: 0 <= i < n ==> items[i] == init[i];
      if items[n].evidenceTimestamp > items[k].evidenceTimestamp {
        k := n;
      }
    }
  }

  /** The diagnostic is the newest of the list, the first of several equally new ones. */
  predicate NewestOf(items: seq<Diagnostic>, d: Option<Diagnostic>) {
    if items == [] then d == None
    else exists k :: && 0 <= k < |items| && d == Some(items[k])
                     && (forall i :: 0 <= i < |items| ==> items[i].evidenceTimestamp <= items[k].evidenceTimestamp)
                     && (forall i :: 0 <= i < k ==> items[i].evidenceTimestamp < items[k].evidenceTimestamp)
  }

  lemma LatestIsNewest(items: seq<Diagnostic>, d: Option<Diagnostic>)
    ensures d == Latest(items) <==> NewestOf(items, d)
  {
    if items != [] {
      var k := LatestIsFirstMaximum(items);
      if j :| && 0 <= j < |items| && d == Some(items[j])
              && (forall i :: 0 <= i < |items| ==> items[i].evidenceTimestamp <= items[j].evidenceTimestamp)
              && (forall i :: 0 <= i < j ==> items[i].evidenceTimestamp < items[j].evidenceTimestamp) {
        assert j == k;
      }
    }
  }
}
