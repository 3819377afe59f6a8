/** The connector supervisor as a state machine: what one call does to the registry, and what
    holds after any sequence of calls. The class at the end is the object with its fields. */
module Supervisor {

  import opened Wrappers
  import opened Text
  import opened Connectors

  const FAILURE_THRESHOLD := 5
  const MAX_BACKOFF_SECONDS := 300

  datatype Error =
    | ConnectorIdRequired
    | ConnectorKindRequired
    | ConnectorNotFound
    | ConnectorDisabled
    | InvalidConnectorHealth
    | ConnectorFailureRequired

  datatype RegisterInput = RegisterInput(
    tenantId: string,
    connectorId: string,
    kind: string,
    displayName: string,
    secretRefs: Option<seq<string>>)

  /** The calls that write the registry; `now` is the clock reading taken inside the call. */
  datatype Op =
    | Register(input: RegisterInput, now: int)
    | ReportHealth(id: string, health: Status, now: int)
    | ReportFailure(id: string, reason: string, now: int)
    | Restart(id: string, now: int)
    | Disable(id: string, reason: string, now: int)
    | ReEnable(id: string, now: int)
    | Restore(items: seq<Connector>)

  datatype Reply = Accepted(connector: Connector, created: bool) | Refused(error: Error) | Restored

  datatype Registry = Registry(byId: map<string, Connector>, order: seq<string>)

  datatype Outcome = Outcome(registry: Registry, reply: Reply)

  const EMPTY := Registry(map[], [])

  // ------------------------------------------------------------ clean_strings

  /** The non-empty values, first occurrences only. */
  function Firsts(values: seq<string>): seq<string> {
    if values == [] then []
    else
      var init := Firsts(values[..|values| - 1]);
      var last := values[|values| - 1];
      if last == "" || last in init then init else init + [last]
  }

  function Cleaned(values: seq<string>): seq<string> {
    Firsts(TrimAll(Rust, values))
  }

  lemma FirstsNext(values: seq<string>, i: nat)
    requires i < |values|
    ensures var init, value := Firsts(values[..i]), values[i];
            Firsts(values[..i + 1]) == if value == "" || value in init then init else init + [value]
  {
    assert values[..i + 1][..i] == values[..i];
  }

  method CleanStrings(values: seq<string>) returns (items: seq<string>)
    ensures items == Cleaned(values)
  {
    ghost var all := TrimAll(Rust, values);
    items := [];
    var seen: set<string> := {};
    for i := 0 to |values|
      invariant items == Firsts(all[..i])
      invariant forall s :: s in seen <==> s in items
    {
      FirstsNext(all, i);
      var trimmed := Trim(Rust, values[i]);
      assert trimmed == all[i];
      if trimmed == "" || trimmed in seen {
        continue;
      }
      seen := seen + {trimmed};
      items := items + [trimmed];
    }
    assert all[..|values|] == all;
  }

  predicate Distinct(s: seq<string>) {
    forall i, j :: 0 <= i < j < |s| ==> s[i] != s[j]
  }

  lemma {:induction false} FirstsExact(values: seq<string>)
    ensures Distinct(Firsts(values))
    ensures forall s :: s in Firsts(values) <==> s != "" && s in values
  {
    if values != [] {
      var init, last := values[..|values| - 1], values[|values| - 1];
      FirstsExact(init);
      assert values == init + [last];
    }
  }

  lemma {:induction false} FirstsInOrder(values: seq<string>, n: nat)
    requires n <= |values|
    ensures Firsts(values[..n]) <= Firsts(values)
    decreases |values| - n
  {
    if n == |values| {
      assert values[..n] == values;
    } else {
      FirstsInOrder(values, n + 1);
      assert values[..n + 1][..n] == values[..n];
    }
  }

  lemma {:induction false} FirstsFixed(items: seq<string>)
    requires Distinct(items) && "" !in items
    ensures Firsts(items) == items
  {
    if items != [] {
      FirstsFixed(items[..|items| - 1]);
      assert items == items[..|items| - 1] + [items[|items| - 1]];
    }
  }

  /** Exactly the non-blank values, trimmed, each once, in the order of first occurrence
      (a longer list only appends); cleaning again changes nothing. */
  lemma CleanedExact(values: seq<string>, n: nat)
    requires n <= |values|
    ensures Distinct(Cleaned(values))
    ensures forall s :: s in Cleaned(values) <==> s != "" && s in TrimAll(Rust, values)
    ensures Cleaned(values[..n]) <= Cleaned(values)
    ensures Cleaned(Cleaned(values)) == Cleaned(values)
  {
    var all, items := TrimAll(Rust, values), Cleaned(values);
    FirstsExact(all);
    assert TrimAll(Rust, values[..n]) == all[..n];
    FirstsInOrder(all, n);
    forall i | 0 <= i < |items| ensures Trim(Rust, items[i]) == items[i] {
      assert items[i] in all;
    }
    assert TrimAll(Rust, items) == items;
    FirstsFixed(items);
  }

  // ------------------------------------------------------------ what calls do

  function Pow2(n: nat): nat {
    if n == 0 then 1 else 2 * Pow2(n - 1)
  }

  function Updated(c: Connector, input: RegisterInput, now: int): Connector {
    c.(kind := input.kind,
       displayName := input.displayName,
       tenantId := if input.tenantId != "" then input.tenantId else c.tenantId,
       secretRefs := if input.secretRefs.Some? then Cleaned(input.secretRefs.value) else c.secretRefs,
       updatedAt := now)
  }

  function Created(input: RegisterInput, now: int): Connector {
    Connector(input.tenantId, input.connectorId, input.kind, input.displayName, Registered, "",
              Cleaned(if input.secretRefs.Some? then input.secretRefs.value else []),
              0, 0, 0, None, None, None, "", now, now)
  }

  function Beating(c: Connector, health: Status, now: int): Connector {
    c.(status := health, failureCount := 0, backoffSeconds := 0, nextRestartAt := None,
       lastHeartbeatAt := Some(now), updatedAt := now)
  }

  function Failing(c: Connector, reason: string, now: int): Connector {
    var count := c.failureCount + 1;
    var noted := c.(failureCount := count, lastFailureReason := reason, updatedAt := now);
    if count >= FAILURE_THRESHOLD then
      noted.(status := Failed, backoffSeconds := 0, nextRestartAt := None)
    else
      var backoff := Min(5 * Pow2(count - 1), MAX_BACKOFF_SECONDS);
      noted.(status := BackingOff, backoffSeconds := backoff, nextRestartAt := Some(now + backoff * SECOND))
  }

  function Restarting(c: Connector, now: int): Connector {
    c.(status := Registered, restartCount := c.restartCount + 1, backoffSeconds := 0, nextRestartAt := None,
       lastRestartAt := Some(now), updatedAt := now)
  }

  function Disabling(c: Connector, reason: string, now: int): Connector {
    c.(status := Disabled, disabledReason := reason, backoffSeconds := 0, nextRestartAt := None, updatedAt := now)
  }

  function ReEnabling(c: Connector, now: int): Connector {
    c.(status := Registered, disabledReason := "", updatedAt := now)
  }

  function ById(items: seq<Connector>): map<string, Connector> {
    if items == [] then map[]
    else
      var last := items[|items| - 1];
      ById(items[..|items| - 1])[last.connectorId := last]
  }

  function Ids(items: seq<Connector>): (ids: seq<string>)
    ensures |ids| == |items|
    ensures forall i :: 0 <= i < |items| ==> ids[i] == items[i].connectorId
  {
    seq(|items|, i requires 0 <= i < |items| => items[i].connectorId)
  }


  function Refuse(r: Registry, error: Error): Outcome {
    Outcome(r, Refused(error))
  }

  /** The calls that change one connector, and the check each makes before the registry. */
  predicate OnConnector(op: Op) {
    !op.Register? && !op.Restore?
  }

  function ArgumentError(op: Op): Option<Error>
    requires OnConnector(op)
  {
    if op.ReportHealth? && op.health != Healthy && op.health != Degraded then Some(InvalidConnectorHealth)
    else if op.ReportFailure? && op.reason == "" then Some(ConnectorFailureRequired)
    else None
  }

  function Transition(c: Connector, op: Op): Connector
    requires OnConnector(op)
  {
    match op
    case ReportHealth(_, health, now) => Beating(c, health, now)
    case ReportFailure(_, reason, now) => Failing(c, reason, now)
    case Restart(_, now) => Restarting(c, now)
    case Disable(_, reason, now) => Disabling(c, reason, now)
    case ReEnable(_, now) => ReEnabling(c, now)
  }

  /** Replaces the connector stored under `id`. */
  function Replace(r: Registry, id: string, c: Connector): Outcome {
    Outcome(r.(byId := r.byId[id := c]), Accepted(c, false))
  }

  function Apply(r: Registry, op: Op): Outcome {
    match op
    case Register(input, now) =>
      if input.connectorId == "" then Refuse(r, ConnectorIdRequired)
      else if input.kind == "" then Refuse(r, ConnectorKindRequired)
      else if input.connectorId in r.byId then
        Replace(r, input.connectorId, Updated(r.byId[input.connectorId], input, now))
      else
        var c := Created(input, now);
        Outcome(Registry(r.byId[input.connectorId := c], r.order + [input.connectorId]), Accepted(c, true))
    case Restore(items) =>
      Outcome(Registry(ById(items), Ids(items)), Restored)
    case _ =>
      if ArgumentError(op).Some? then Refuse(r, ArgumentError(op).value)
      else if op.id !in r.byId then Refuse(r, ConnectorNotFound)
      else if r.byId[op.id].status == Disabled && !op.Disable? && !op.ReEnable? then Refuse(r, ConnectorDisabled)
      else Replace(r, op.id, Transition(r.byId[op.id], op))
  }

  /** The registry after a history of calls, from an empty supervisor. */
  function Run(ops: seq<Op>): Registry {
    if ops == [] then EMPTY else Apply(Run(ops[..|ops| - 1]), ops[|ops| - 1]).registry
  }

  /** What the last call of a history answered. */
  function LastReply(ops: seq<Op>): Reply
    requires ops != []
  {
    Apply(Run(ops[..|ops| - 1]), ops[|ops| - 1]).reply
  }

  // --------------------------------------------------------- the run invariant

  predicate Consistent(c: Connector) {
    && (c.nextRestartAt.Some? <==> c.backoffSeconds > 0)
    && c.backoffSeconds >= 0
    && (c.backoffSeconds > 0 ==>
          1 <= c.failureCount < FAILURE_THRESHOLD && c.backoffSeconds == 5 * Pow2(c.failureCount - 1) <= 40)
    && (c.status == BackingOff ==> c.backoffSeconds > 0)
    && (c.status == Healthy || c.status == Degraded ==> c.failureCount == 0)
    && (c.status == Failed ==> c.failureCount >= FAILURE_THRESHOLD)
    && (c.status == Failed || c.status == Disabled ==> c.backoffSeconds == 0)
  }

  ghost predicate Invariant(r: Registry) {
    && Distinct(r.order)
    && (forall id :: id in r.order <==> id in r.byId)
    && (forall id :: id in r.byId ==> r.byId[id].connectorId == id && Consistent(r.byId[id]))
  }

  /** What a restore must bring for the invariant to survive it. */
  predicate CleanItems(items: seq<Connector>) {
    && Distinct(Ids(items))
    && forall i :: 0 <= i < |items| ==> Consistent(items[i])
  }

  predicate CleanOp(op: Op) {
    op.Restore? ==> CleanItems(op.items)
  }

  /** One more failure: backing off up to the fourth, failed from the fifth on. */
  lemma FailingSchedule(c: Connector, reason: string, now: int)
    ensures var f := Failing(c, reason, now);
            && Consistent(f)
            && f.failureCount == c.failureCount + 1
            && AfterFailure(f, f.failureCount, now)
  {
    assert Pow2(0) == 1 && Pow2(1) == 2 && Pow2(2) == 4 && Pow2(3) == 8;
  }

  lemma TransitionIsConsistent(c: Connector, op: Op)
    requires OnConnector(op) && ArgumentError(op) == None && Consistent(c)
    requires c.status == Disabled ==> op.Disable? || op.ReEnable?
    ensures Consistent(Transition(c, op)) && Transition(c, op).connectorId == c.connectorId
  {
    if op.ReportFailure? {
      FailingSchedule(c, op.reason, op.now);
    }
  }

  lemma ReplaceKeepsInvariant(r: Registry, id: string, c: Connector)
    requires Invariant(r) && id in r.byId && c.connectorId == id && Consistent(c)
    ensures Invariant(Replace(r, id, c).registry)
  {
  }

  lemma {:induction false} ByIdExact(items: seq<Connector>)
    ensures forall id :: id in ById(items) <==> id in Ids(items)
    ensures forall id :: id in ById(items) ==> ById(items)[id].connectorId == id && ById(items)[id] in items
  {
    if items != [] {
      var init := items[..|items| - 1];
      ByIdExact(init);
      assert Ids(items) == Ids(init) + [items[|items| - 1].connectorId];
    }
  }

  lemma {:induction false} ByIdFinds(items: seq<Connector>, i: nat)
    requires i < |items| && Distinct(Ids(items))
    ensures items[i].connectorId in ById(items) && ById(items)[items[i].connectorId] == items[i]
    decreases |items|
  {
    var n := |items| - 1;
    if i < n {
      assert Ids(items)[i] != Ids(items)[n];
      assert Ids(items[..n]) == Ids(items)[..n];
      ByIdFinds(items[..n], i);
    }
  }

  /** A restore establishes the invariant exactly when its items are clean. */
  lemma RestoreKeepsInvariant(r: Registry, items: seq<Connector>)
    ensures Invariant(Apply(r, Restore(items)).registry) <==> CleanItems(items)
  {
    ByIdExact(items);
    if Invariant(Apply(r, Restore(items)).registry) {
      forall i | 0 <= i < |items| ensures Consistent(items[i]) {
        ByIdFinds(items, i);
      }
    }
  }

  lemma AddKeepsInvariant(r: Registry, id: string, c: Connector)
    requires Invariant(r) && id !in r.byId && c.connectorId == id && Consistent(c)
    ensures Invariant(Registry(r.byId[id := c], r.order + [id]))
  {
    assert forall k :: k in r.order + [id] <==> k in r.order || k == id;
  }

  lemma RegisteredIsConsistent(c: Connector, input: RegisterInput, now: int)
    ensures Consistent(Created(input, now))
    ensures Consistent(c) ==> Consistent(Updated(c, input, now))
  {
  }

  lemma RegisterKeepsInvariant(r: Registry, input: RegisterInput, now: int)
    requires Invariant(r)
    ensures Invariant(Apply(r, Register(input, now)).registry)
  {
    var id := input.connectorId;
    if id in r.byId {
      RegisteredIsConsistent(r.byId[id], input, now);
      ReplaceKeepsInvariant(r, id, Updated(r.byId[id], input, now));
    } else {
      RegisteredIsConsistent(Created(input, now), input, now);
      AddKeepsInvariant(r, id, Created(input, now));
    }
  }

  lemma StepKeepsInvariant(r: Registry, op: Op)
    requires Invariant(r) && CleanOp(op)
    ensures Invariant(Apply(r, op).registry)
  {
    if op.Restore? {
      RestoreKeepsInvariant(r, op.items);
    } else if op.Register? {
      RegisterKeepsInvariant(r, op.input, op.now);
    } else if Apply(r, op).reply.Accepted? {
      TransitionIsConsistent(r.byId[op.id], op);
      ReplaceKeepsInvariant(r, op.id, Transition(r.byId[op.id], op));
    }
  }

  /** Every run whose restores bring clean items keeps the invariant. */
  lemma {:induction false} RunKeepsInvariant(ops: seq<Op>)
    requires forall i :: 0 <= i < |ops| ==> CleanOp(ops[i])
    ensures Invariant(Run(ops))
  {
    if ops != [] {
      RunKeepsInvariant(ops[..|ops| - 1]);
      StepKeepsInvariant(Run(ops[..|ops| - 1]), ops[|ops| - 1]);
    }
  }

  // ------------------------------------------------- failures counted by history

  /** The call starts the connector's failure count afresh. */
  predicate Resets(op: Op, reply: Reply, id: string) {
    || op.Restore?
    || (reply.Accepted? && op.ReportHealth? && op.id == id)
    || (reply.Accepted? && op.Register? && reply.created && op.input.connectorId == id)
  }

  /** The call is an accepted failure of the connector. */
  predicate Fails(op: Op, reply: Reply, id: string) {
    op.ReportFailure? && op.id == id && reply.Accepted?
  }

  predicate EndsInReset(ops: seq<Op>, id: string)
    requires ops != []
  {
    Resets(ops[|ops| - 1], LastReply(ops), id)
  }

  predicate EndsInFailure(ops: seq<Op>, id: string)
    requires ops != []
  {
    Fails(ops[|ops| - 1], LastReply(ops), id)
  }

  /** The length of the history up to and including the last accepted heartbeat, creation or
      restore; 0 if there was none. */
  function ResetPoint(ops: seq<Op>, id: string): (k: nat)
    ensures k <= |ops|
  {
    if ops == [] then 0
    else if EndsInReset(ops, id) then |ops|
    else ResetPoint(ops[..|ops| - 1], id)
  }

  /** Accepted failures of the connector after the first `from` calls. */
  function FailuresAfter(ops: seq<Op>, id: string, from: nat): nat {
    if |ops| <= from then 0
    else FailuresAfter(ops[..|ops| - 1], id, from) + (if EndsInFailure(ops, id) then 1 else 0)
  }

  /** The count a restore brought with it, 0 for a heartbeat or a creation. */
  function Brought(ops: seq<Op>, id: string): nat {
    var k := ResetPoint(ops, id);
    if k == 0 || !ops[k - 1].Restore? then 0
    else
      var restored := ById(ops[k - 1].items);
      if id in restored then restored[id].failureCount else 0
  }

  function Tally(ops: seq<Op>, id: string): nat {
    Brought(ops, id) + FailuresAfter(ops, id, ResetPoint(ops, id))
  }

  lemma ResetPointSettles(ops: seq<Op>, id: string)
    requires ops != [] && !EndsInReset(ops, id)
    ensures Tally(ops, id) == Tally(ops[..|ops| - 1], id) + if EndsInFailure(ops, id) then 1 else 0
  {
    var init := ops[..|ops| - 1];
    var k := ResetPoint(init, id);
    assert k > 0 ==> ops[k - 1] == init[k - 1];
  }

  function Count(r: Registry, id: string): nat {
    if id in r.byId then r.byId[id].failureCount else 0
  }

  /** What one call other than a restore does to a connector's count. */
  lemma CountStep(r: Registry, op: Op, id: string)
    requires !op.Restore?
    ensures var after, reply := Apply(r, op).registry, Apply(r, op).reply;
            Count(after, id) == if Resets(op, reply, id) then 0
                                else if Fails(op, reply, id) then Count(r, id) + 1
                                else Count(r, id)
  {
  }

  /** The stored failure count is the number of accepted failures since the last accepted
      heartbeat, creation or restore, whatever restarts, disables, re-enables and
      re-registrations happened in between. */
  lemma {:induction false} FailureCountIsTally(ops: seq<Op>, id: string)
    ensures Count(Run(ops), id) == Tally(ops, id)
  {
    if ops != [] {
      var init, op := ops[..|ops| - 1], ops[|ops| - 1];
      FailureCountIsTally(init, id);
      if !op.Restore? {
        CountStep(Run(init), op, id);
        if !EndsInReset(ops, id) {
          ResetPointSettles(ops, id);
        }
      }
    }
  }

  lemma AcceptedFailure(ops: seq<Op>, id: string)
    requires ops != [] && EndsInFailure(ops, id)
    ensures var before, op := Run(ops[..|ops| - 1]), ops[|ops| - 1];
            && id in before.byId && id in Run(ops).byId
            && Run(ops).byId[id] == Failing(before.byId[id], op.reason, op.now)
  {
  }

  /** What a connector looks like right after its n-th failure in a row at time `now`. */
  predicate AfterFailure(c: Connector, n: nat, now: int) {
    && n >= 1
    && (n < FAILURE_THRESHOLD ==>
          c.status == BackingOff && c.backoffSeconds == 5 * Pow2(n - 1) <= 40
          && c.nextRestartAt == Some(now + c.backoffSeconds * SECOND))
    && (n >= FAILURE_THRESHOLD ==> c.status == Failed && c.backoffSeconds == 0 && c.nextRestartAt == None)
  }

  /** The circuit breaker, read off the history alone: the n-th accepted failure since the last
      reset backs off 5 * 2^(n-1) seconds for n < 5 and fails the connector from the fifth on. */
  lemma BreakerFollowsTally(ops: seq<Op>, id: string)
    requires ops != [] && EndsInFailure(ops, id)
    ensures id in Run(ops).byId && AfterFailure(Run(ops).byId[id], Tally(ops, id), ops[|ops| - 1].now)
  {
    AcceptedFailure(ops, id);
    var before, op := Run(ops[..|ops| - 1]), ops[|ops| - 1];
    FailingSchedule(before.byId[id], op.reason, op.now);
    FailureCountIsTally(ops, id);
  }

  // ------------------------------------------------------------- leftover backoff

  /** Registered, yet with a restart still scheduled. */
  predicate LeftoverBackoff(r: Registry, id: string) {
    id in r.byId && r.byId[id].status == Registered && r.byId[id].backoffSeconds > 0
  }

  /** The call writes the connector's backoff: an accepted heartbeat, failure, restart or disable
      of it, its creation, or any restore. */
  predicate Settles(op: Op, reply: Reply, id: string) {
    || op.Restore?
    || (reply.Accepted? && op.Register? && reply.created && op.input.connectorId == id)
    || (reply.Accepted? && OnConnector(op) && !op.ReEnable? && op.id == id)
  }

  predicate EndsSettled(ops: seq<Op>, id: string)
    requires ops != []
  {
    Settles(ops[|ops| - 1], LastReply(ops), id)
  }

  predicate EndsReEnabled(ops: seq<Op>, id: string)
    requires ops != []
  {
    ops[|ops| - 1].ReEnable? && ops[|ops| - 1].id == id && LastReply(ops).Accepted?
  }

  /** The history up to and including the last call that wrote the connector's backoff. */
  function Settled(ops: seq<Op>, id: string): (past: seq<Op>)
    ensures past <= ops
    ensures past != [] ==> EndsSettled(past, id)
  {
    if ops == [] || EndsSettled(ops, id) then ops else Settled(ops[..|ops| - 1], id)
  }

  /** An accepted re-enable of the connector comes after that call. */
  predicate ReEnabledSince(ops: seq<Op>, id: string) {
    ops != [] && !EndsSettled(ops, id) && (EndsReEnabled(ops, id) || ReEnabledSince(ops[..|ops| - 1], id))
  }

  function RestoredItem(op: Op, id: string): Option<Connector>
    requires op.Restore?
  {
    if id in ById(op.items) then Some(ById(op.items)[id]) else None
  }

  /** The last call that wrote the backoff was a failure below the threshold, or a restore that
      brought one. */
  predicate OwesBackoff(ops: seq<Op>, id: string) {
    var past := Settled(ops, id);
    past != [] &&
    var last := past[|past| - 1];
    if last.Restore? then RestoredItem(last, id).Some? && RestoredItem(last, id).value.backoffSeconds > 0
    else last.ReportFailure? && Tally(past, id) < FAILURE_THRESHOLD
  }

  predicate RestoredRegistered(ops: seq<Op>, id: string) {
    var past := Settled(ops, id);
    && past != [] && past[|past| - 1].Restore?
    && RestoredItem(past[|past| - 1], id).Some? && RestoredItem(past[|past| - 1], id).value.status == Registered
  }

  /** What a call that does not write the backoff does to a connector. */
  lemma UnsettledStep(r: Registry, op: Op, id: string)
    requires !Settles(op, Apply(r, op).reply, id)
    ensures var after := Apply(r, op).registry;
            && (id in after.byId <==> id in r.byId)
            && (id in r.byId ==>
                  && after.byId[id].backoffSeconds == r.byId[id].backoffSeconds
                  && after.byId[id].status ==
                       if op.ReEnable? && op.id == id then Registered else r.byId[id].status)
            && (op.ReEnable? && op.id == id ==> (Apply(r, op).reply.Accepted? <==> id in r.byId))
  {
  }

  /** Heartbeats, restarts, disables and creations leave no backoff. */
  lemma SettledStep(r: Registry, op: Op, id: string)
    requires Settles(op, Apply(r, op).reply, id) && !op.Restore? && !op.ReportFailure?
    ensures id in Apply(r, op).registry.byId && Apply(r, op).registry.byId[id].backoffSeconds == 0
  {
  }

  /** The backoff, and the status while there is any, as the history tells. */
  ghost predicate BackoffAsTold(ops: seq<Op>, id: string) {
    var r := Run(ops);
    && (OwesBackoff(ops, id) <==> id in r.byId && r.byId[id].backoffSeconds > 0)
    && (OwesBackoff(ops, id) ==>
          (r.byId[id].status == Registered <==> ReEnabledSince(ops, id) || RestoredRegistered(ops, id)))
  }

  lemma RestoredIsTold(ops: seq<Op>, id: string)
    requires ops != [] && ops[|ops| - 1].Restore?
    ensures BackoffAsTold(ops, id)
  {
    assert Settled(ops, id) == ops && !ReEnabledSince(ops, id);
    assert Run(ops).byId == ById(ops[|ops| - 1].items);
  }

  lemma FailedIsTold(ops: seq<Op>, id: string)
    requires ops != [] && EndsInFailure(ops, id)
    ensures BackoffAsTold(ops, id)
  {
    BreakerFollowsTally(ops, id);
    FailedBackoff(Run(ops).byId[id], Tally(ops, id), ops[|ops| - 1].now);
    assert EndsSettled(ops, id);
    assert Settled(ops, id) == ops && !ReEnabledSince(ops, id);
  }

  lemma FailedBackoff(c: Connector, n: nat, now: int)
    requires AfterFailure(c, n, now)
    ensures c.backoffSeconds > 0 <==> n < FAILURE_THRESHOLD
    ensures c.status != Registered
  {
    PowPositive(n - 1);
  }

  lemma {:induction false} PowPositive(n: nat)
    ensures Pow2(n) > 0
  {
    if n > 0 {
      PowPositive(n - 1);
    }
  }

  lemma ClearedIsTold(ops: seq<Op>, id: string)
    requires ops != [] && EndsSettled(ops, id) && !ops[|ops| - 1].Restore? && !ops[|ops| - 1].ReportFailure?
    ensures BackoffAsTold(ops, id)
  {
    assert Settled(ops, id) == ops;
    SettledStep(Run(ops[..|ops| - 1]), ops[|ops| - 1], id);
  }

  lemma UnsettledIsTold(ops: seq<Op>, id: string)
    requires ops != [] && !EndsSettled(ops, id) && BackoffAsTold(ops[..|ops| - 1], id)
    ensures BackoffAsTold(ops, id)
  {
    var init := ops[..|ops| - 1];
    UnsettledStep(Run(init), ops[|ops| - 1], id);
    assert Settled(ops, id) == Settled(init, id);
  }

  lemma {:induction false} BackoffFollowsHistory(ops: seq<Op>, id: string)
    ensures BackoffAsTold(ops, id)
  {
    if ops != [] {
      var op := ops[|ops| - 1];
      if op.Restore? {
        RestoredIsTold(ops, id);
      } else if EndsInFailure(ops, id) {
        FailedIsTold(ops, id);
      } else if EndsSettled(ops, id) {
        ClearedIsTold(ops, id);
      } else {
        BackoffFollowsHistory(ops[..|ops| - 1], id);
        UnsettledIsTold(ops, id);
      }
    }
  }

  /** A connector is registered with a restart still scheduled exactly when, of the calls that
      write its backoff, the last was a failure below the threshold with a re-enable after it, or
      a restore that brought such a backoff, registered or re-enabled after it. */
  lemma LeftoverIffReEnabledWhileBackingOff(ops: seq<Op>, id: string)
    ensures LeftoverBackoff(Run(ops), id) <==>
      OwesBackoff(ops, id) && (ReEnabledSince(ops, id) || RestoredRegistered(ops, id))
  {
    BackoffFollowsHistory(ops, id);
  }

  /** After any history, a first failure and a re-enable leave five seconds of backoff. */
  lemma ReEnableKeepsBackoff(ops: seq<Op>, id: string, reason: string, now: int)
    requires id in Run(ops).byId && Run(ops).byId[id].status == Registered && Run(ops).byId[id].failureCount == 0
    requires reason != ""
    ensures var r := Run(ops + [ReportFailure(id, reason, now)] + [ReEnable(id, now)]);
            LeftoverBackoff(r, id) && r.byId[id].backoffSeconds == 5
  {
    var failed := ops + [ReportFailure(id, reason, now)];
    RunSnoc(ops, ReportFailure(id, reason, now));
    RunSnoc(failed, ReEnable(id, now));
    FailOnce(Run(ops), id, reason, now);
    ReEnableOnce(Run(failed), id, now);
  }

  lemma RegisterOnce(input: RegisterInput, now: int)
    requires input.connectorId != "" && input.kind != ""
    ensures var r := Run([Register(input, now)]);
            && input.connectorId in r.byId && r.byId[input.connectorId].status == Registered
            && r.byId[input.connectorId].failureCount == 0
  {
    var op := Register(input, now);
    RunSnoc([], op);
    assert [] + [op] == [op];
  }

  /** Register, fail, re-enable: registered with a restart still scheduled. */
  lemma RegisterFailReEnable(input: RegisterInput, reason: string, now: int)
    requires input.connectorId != "" && input.kind != "" && reason != ""
    ensures LeftoverBackoff(Run([Register(input, now)] + [ReportFailure(input.connectorId, reason, now)]
                                + [ReEnable(input.connectorId, now)]), input.connectorId)
  {
    RegisterOnce(input, now);
    ReEnableKeepsBackoff([Register(input, now)], input.connectorId, reason, now);
  }

  lemma FailOnce(r: Registry, id: string, reason: string, now: int)
    requires id in r.byId && r.byId[id].status == Registered && r.byId[id].failureCount == 0 && reason != ""
    ensures var after := Apply(r, ReportFailure(id, reason, now)).registry;
            id in after.byId && after.byId[id].backoffSeconds == 5
  {
    assert Pow2(0) == 1;
  }

  lemma ReEnableOnce(r: Registry, id: string, now: int)
    requires id in r.byId
    ensures var after := Apply(r, ReEnable(id, now)).registry;
            && id in after.byId && after.byId[id].status == Registered
            && after.byId[id].backoffSeconds == r.byId[id].backoffSeconds
  {
  }

  lemma RunSnoc(ops: seq<Op>, op: Op)
    ensures Run(ops + [op]) == Apply(Run(ops), op).registry
  {
    assert (ops + [op])[..|ops|] == ops;
  }

  // --------------------------------------------------------- the disabled window

  predicate IsDisabled(r: Registry, id: string) {
    id in r.byId && r.byId[id].status == Disabled
  }

  /** Calls that can end a disabled period. */
  predicate Reopens(op: Op, id: string) {
    op.Restore? || (op.ReEnable? && op.id == id)
  }

  /** `require_inbound_ready`, with the tenant check of `get_for_tenant`. */
  function InboundReady(r: Registry, id: string, tenantId: string): Result<Connector, Error> {
    if id !in r.byId || (tenantId != "" && r.byId[id].tenantId != tenantId) then Failure(ConnectorNotFound)
    else if r.byId[id].status == Disabled then Failure(ConnectorDisabled)
    else Success(r.byId[id])
  }

  lemma StaysDisabled(r: Registry, op: Op, id: string)
    requires IsDisabled(r, id) && !Reopens(op, id)
    ensures IsDisabled(Apply(r, op).registry, id)
  {
  }

  /** Closed to inbound traffic, and deaf to heartbeats, failures and restarts. */
  ghost predicate ShutOff(r: Registry, id: string) {
    && (forall tenantId :: InboundReady(r, id, tenantId).Failure?)
    && (forall op: Op :: (op.ReportHealth? || op.ReportFailure? || op.Restart?) && op.id == id ==>
          Apply(r, op).reply.Refused? && Apply(r, op).registry == r)
  }

  lemma DisabledIsShutOff(r: Registry, id: string)
    requires IsDisabled(r, id)
    ensures ShutOff(r, id)
  {
  }

  /** From an accepted disable until a re-enable of it or a restore the connector stays
      disabled and shut off, whatever else is called. */
  lemma {:induction false} DisabledUntilReopened(ops: seq<Op>, rest: seq<Op>, id: string)
    requires ops != [] && ops[|ops| - 1].Disable? && ops[|ops| - 1].id == id && LastReply(ops).Accepted?
    requires forall i :: 0 <= i < |rest| ==> !Reopens(rest[i], id)
    ensures IsDisabled(Run(ops + rest), id) && ShutOff(Run(ops + rest), id)
    decreases |rest|
  {
    var all := ops + rest;
    if rest == [] {
      assert all == ops;
    } else {
      var n := |rest| - 1;
      DisabledUntilReopened(ops, rest[..n], id);
      assert all[..|all| - 1] == ops + rest[..n] && all[|all| - 1] == rest[n];
      StaysDisabled(Run(ops + rest[..n]), rest[n], id);
    }
    DisabledIsShutOff(Run(all), id);
  }

  // ---------------------------------------------------------------- the listing

  /** `list`: the connectors the order names, in that order. */
  function List(r: Registry, order: seq<string>): seq<Connector> {
    if order == [] then []
    else (if order[0] in r.byId then [r.byId[order[0]]] else []) + List(r, order[1..])
  }

  lemma {:induction false} ListFollows(r: Registry, order: seq<string>)
    requires forall i :: 0 <= i < |order| ==> order[i] in r.byId
    ensures |List(r, order)| == |order|
    ensures forall i :: 0 <= i < |order| ==> List(r, order)[i] == r.byId[order[i]]
  {
    if order != [] {
      ListFollows(r, order[1..]);
    }
  }

  /** After any clean run the listing shows every registered connector, and none twice. */
  lemma ListShowsAll(ops: seq<Op>)
    requires forall i :: 0 <= i < |ops| ==> CleanOp(ops[i])
    ensures var r := Run(ops);
            var listed := List(r, r.order);
            && Distinct(Ids(listed))
            && forall id :: id in r.byId <==> id in Ids(listed)
  {
    var r := Run(ops);
    RunKeepsInvariant(ops);
    ListFollows(r, r.order);
    assert Ids(List(r, r.order)) == r.order;
  }

  // ------------------------------------------------------------------ the object

  /** The supervisor object. Every call holds the registry lock from its first read to its last
      write, so a history of calls is a sequence of these methods. */
  class Supervisor {
    var byId: map<string, Connector>
    var order: seq<string>
    ghost var history: seq<Op>

    ghost predicate Valid()
      reads this
    {
      Registry(byId, order) == Run(history)
    }

    constructor ()
      ensures Valid() && history == []
    {
      byId, order, history := map[], [], [];
    }

    ghost method Note(op: Op)
      requires Registry(byId, order) == Apply(Run(history), op).registry
      modifies this`history
      ensures Valid() && history == old(history) + [op]
    {
      history := history + [op];
      assert history[..|history| - 1] == old(history);
    }

    method Register(input: RegisterInput, now: int) returns (reply: Reply)
      requires Valid()
      modifies this
      ensures Valid() && history == old(history) + [Op.Register(input, now)]
      ensures reply == LastReply(history)
    {
      ghost var before := Registry(byId, order);
      reply := Refused(ConnectorIdRequired);
      if input.connectorId != "" && input.kind == "" {
        reply := Refused(ConnectorKindRequired);
      } else if input.connectorId != "" && input.connectorId in byId {
        var existing := byId[input.connectorId].(kind := input.kind, displayName := input.displayName);
        if input.tenantId != "" {
          existing := existing.(tenantId := input.tenantId);
        }
        if input.secretRefs.Some? {
          var refs := CleanStrings(input.secretRefs.value);
          existing := existing.(secretRefs := refs);
        }
        existing := existing.(updatedAt := now);
        byId := byId[input.connectorId := existing];
        reply := Accepted(existing, false);
      } else if input.connectorId != "" {
        var refs := CleanStrings(if input.secretRefs.Some? then input.secretRefs.value else []);
        var connector := Connector(input.tenantId, input.connectorId, input.kind, input.displayName, Registered,
                                   "", refs, 0, 0, 0, None, None, None, "", now, now);
        byId := byId[connector.connectorId := connector];
        order := order + [connector.connectorId];
        reply := Accepted(connector, true);
      }
      Note(Op.Register(input, now));
    }

    method ReportHealth(id: string, health: Status, now: int) returns (reply: Reply)
      requires Valid()
      modifies this
      ensures Valid() && history == old(history) + [Op.ReportHealth(id, health, now)]
      ensures reply == LastReply(history)
    {
      if health != Healthy && health != Degraded {
        reply := Refused(InvalidConnectorHealth);
      } else if id !in byId {
        reply := Refused(ConnectorNotFound);
      } else if byId[id].status == Disabled {
        reply := Refused(ConnectorDisabled);
      } else {
        var c := byId[id].(status := health, failureCount := 0, backoffSeconds := 0, nextRestartAt := None);
        c := c.(lastHeartbeatAt := Some(now), updatedAt := now);
        assert c == Beating(byId[id], health, now);
        byId := byId[id := c];
        reply := Accepted(c, false);
      }
      Note(Op.ReportHealth(id, health, now));
    }

    method ReportFailure(id: string, reason: string, now: int) returns (reply: Reply)
      requires Valid()
      modifies this
      ensures Valid() && history == old(history) + [Op.ReportFailure(id, reason, now)]
      ensures reply == LastReply(history)
    {
      if reason == "" {
        reply := Refused(ConnectorFailureRequired);
      } else if id !in byId {
        reply := Refused(ConnectorNotFound);
      } else if byId[id].status == Disabled {
        reply := Refused(ConnectorDisabled);
      } else {
        var c := byId[id];
        c := c.(failureCount := c.failureCount + 1, lastFailureReason := reason, updatedAt := now);
        if c.failureCount >= FAILURE_THRESHOLD {
          c := c.(status := Failed, backoffSeconds := 0, nextRestartAt := None);
        } else {
          var backoff := Min(5 * Pow2(c.failureCount - 1), MAX_BACKOFF_SECONDS);
          c := c.(status := BackingOff, backoffSeconds := backoff, nextRestartAt := Some(now + backoff * SECOND));
        }
        assert c == Failing(byId[id], reason, now);
        byId := byId[id := c];
        reply := Accepted(c, false);
      }
      Note(Op.ReportFailure(id, reason, now));
    }

    method Restart(id: string, now: int) returns (reply: Reply)
      requires Valid()
      modifies this
      ensures Valid() && history == old(history) + [Op.Restart(id, now)]
      ensures reply == LastReply(history)
    {
      if id !in byId {
        reply := Refused(ConnectorNotFound);
      } else if byId[id].status == Disabled {
        reply := Refused(ConnectorDisabled);
      } else {
        var c := byId[id];
        c := c.(status := Registered, restartCount := c.restartCount + 1, backoffSeconds := 0, nextRestartAt := None);
        c := c.(lastRestartAt := Some(now), updatedAt := now);
        assert c == Restarting(byId[id], now);
        byId := byId[id := c];
        reply := Accepted(c, false);
      }
      Note(Op.Restart(id, now));
    }

    method Disable(id: string, reason: string, now: int) returns (reply: Reply)
      requires Valid()
      modifies this
      ensures Valid() && history == old(history) + [Op.Disable(id, reason, now)]
      ensures reply == LastReply(history)
    {
      if id !in byId {
        reply := Refused(ConnectorNotFound);
      } else {
        var c := byId[id].(status := Disabled, disabledReason := reason);
        c := c.(backoffSeconds := 0, nextRestartAt := None, updatedAt := now);
        assert c == Disabling(byId[id], reason, now);
        byId := byId[id := c];
        reply := Accepted(c, false);
      }
      Note(Op.Disable(id, reason, now));
    }

    method ReEnable(id: string, now: int) returns (reply: Reply)
      requires Valid()
      modifies this
      ensures Valid() && history == old(history) + [Op.ReEnable(id, now)]
      ensures reply == LastReply(history)
    {
      if id !in byId {
        reply := Refused(ConnectorNotFound);
      } else {
        var c := byId[id].(status := Registered, disabledReason := "", updatedAt := now);
        byId := byId[id := c];
        reply := Accepted(c, false);
      }
      Note(Op.ReEnable(id, now));
    }

    method Restore(items: seq<Connector>)
      requires Valid()
      modifies this
      ensures Valid() && history == old(history) + [Op.Restore(items)]
    {
      byId, order := map[], [];
      for i := 0 to |items|
        invariant history == old(history)
        invariant byId == ById(items[..i]) && order == Ids(items[..i])
      {
        assert items[..i + 1][..i] == items[..i];
        order := order + [items[i].connectorId];
        byId := byId[items[i].connectorId := items[i]];
      }
      assert items[..|items|] == items;
      Note(Op.Restore(items));
    }
  }
}
