/** The connector record and its status enumeration. Timestamps count nanoseconds from the epoch. */
module Connectors {

  import opened Wrappers

  const SECOND := 1_000_000_000

  datatype Status = Registered | Healthy | Degraded | BackingOff | Failed | Disabled

  datatype Connector = Connector(
    tenantId: string,
    connectorId: string,
    kind: string,
    displayName: string,
    status: Status,
    disabledReason: string,
    secretRefs: seq<string>,
    failureCount: nat,
    restartCount: int,
    backoffSeconds: int,
    nextRestartAt: Option<int>,
    lastRestartAt: Option<int>,
    lastHeartbeatAt: Option<int>,
    lastFailureReason: string,
    createdAt: int,
    updatedAt: int)

  function Min(a: int, b: int): int {
    if a < b then a else b
  }
}
