/** What each call of the runtime answers and does, told without the functions that model it:
    which moves a step can make, which calls are refused and why, and what an accepted call
    changes and leaves alone. */
module RuntimeCalls {

  import opened Wrappers
  import opened Runtime
  import opened RuntimeHistory

  // ------------------------------------------------------------- moves by target

  /** A step that has left the queue and has not ended. */
  predicate UnderWay(status: StatusName) {
    status == Planning || status == CallingModel || status == ExecutingTool || status == WaitingInput || status == Blocked
  }

  /** Where a step can come from, told by where it goes. */
  predicate MayMove(from: StatusName, to: StatusName) {
    match to
    case Planning => from == Queued || (UnderWay(from) && from != Planning)
    case CallingModel => from == Planning
    case ExecutingTool => from == Planning || from == CallingModel
    case WaitingInput => from == Planning || from == CallingModel || from == ExecutingTool
    case Blocked => from == Planning || from == CallingModel || from == ExecutingTool
    case Completed => from == CallingModel || from == ExecutingTool
    case Failed => UnderWay(from)
    case Cancelled => from == Queued || UnderWay(from)
    case _ => false
  }

  lemma MovesByTarget(from: StatusName, to: StatusName)
    ensures to in Allowed(from) <==> MayMove(from, to)
  {
  }

  // ------------------------------------------------------------- answers

  /** The first step of a run with the id is at `k`. */
  predicate FirstAt(steps: seq<Step>, stepId: string, k: int) {
    0 <= k < |steps| && steps[k].stepId == stepId && forall j :: 0 <= j < k ==> steps[j].stepId != stepId
  }

  predicate HasStep(s: State, runId: string, stepId: string) {
    runId in s.steps && exists k :: 0 <= k < |s.steps[runId]| && s.steps[runId][k].stepId == stepId
  }

  lemma FindIsFirst(steps: seq<Step>, stepId: string)
    ensures forall k :: FirstAt(steps, stepId, k) <==> k == Find(steps, stepId) < |steps|
    ensures (exists k :: 0 <= k < |steps| && steps[k].stepId == stepId) <==> Find(steps, stepId) < |steps|
  {
  }

  /** The run the call is about, if it needs one, and the step, if it needs one, exist. */
  predicate OnKnownStep(s: State, op: Op) {
    match op
    case CreateRun(_, _, _, _, _, _, _) => true
    case RestoreCheckpoint(checkpointId) => checkpointId in s.checkpoints
    case UpdateStepStatus(runId, stepId, _, _, _, _) => runId in s.runs && HasStep(s, runId, stepId)
    case RequestToolCall(runId, stepId, _, _, _, _) => runId in s.runs && HasStep(s, runId, stepId)
    case CompleteToolCall(runId, stepId, _, _, _) => runId in s.runs && HasStep(s, runId, stepId)
    case FailToolCall(runId, stepId, _, _, _) => runId in s.runs && HasStep(s, runId, stepId)
    case UpdateRunStatus(runId, _, _, _, _) => runId in s.runs
    case CreateStep(runId, _, _, _, _, _, _) => runId in s.runs
    case EvaluatePolicy(runId, _, _, _) => runId in s.runs
    case SaveCheckpoint(runId, _, _, _) => runId in s.runs
  }

  /** A step update asks for a move the step cannot make. */
  ghost predicate ForbiddenMove(s: State, op: Op) {
    op.UpdateStepStatus? && op.runId in s.steps
    && exists k :: FirstAt(s.steps[op.runId], op.stepId, k) && !MayMove(s.steps[op.runId][k].status, op.next)
  }

  lemma KnownIsAnswered(s: State, op: Op)
    requires Orderly(s) && OnKnownStep(s, op) && !ForbiddenMove(s, op)
    ensures Apply(s, op).error == None
  {
    if op.RestoreCheckpoint? || op.SaveCheckpoint? {
      CheckpointCallsKeepOrder(s, op);
    } else if op.CreateRun? {
      CreateRunWrites(s, op);
    } else if op.UpdateStepStatus? {
      assert SameKeys(s, op.runId);
      FindIsFirst(s.steps[op.runId], op.stepId);
      var k := Find(s.steps[op.runId], op.stepId);
      MovesByTarget(s.steps[op.runId][k].status, op.next);
      assert FirstAt(s.steps[op.runId], op.stepId, k);
      StepStatusWrites(s, op);
    } else if IsToolOp(op) {
      assert SameKeys(s, op.runId);
      FindIsFirst(s.steps[op.runId], op.stepId);
      NoteKeepsOrder(s, Event(op.runId, Some(op.stepId), ToolBody(op), op.at));
    } else if op.EvaluatePolicy? {
      NoteKeepsOrder(s, Event(op.runId, op.policyStepId, PolicyDecided(op.decision), op.at));
    } else {
      UpdateKeepsOrder(s, op);
    }
  }

  /** Why a call on something that is not there is refused. */
  function Absence(s: State, op: Op): Error {
    if op.RestoreCheckpoint? then CheckpointNotFound
    else if op.runId !in s.runs then RunNotFound
    else StepNotFound
  }

  lemma UnknownIsRefused(s: State, op: Op)
    requires Orderly(s) && !OnKnownStep(s, op)
    ensures Apply(s, op) == Outcome(s, Some(Absence(s, op)))
  {
    if op.UpdateStepStatus? || IsToolOp(op) {
      assert SameKeys(s, op.runId);
      if op.runId in s.runs {
        FindIsFirst(s.steps[op.runId], op.stepId);
      }
    }
  }

  lemma ForbiddenIsRefused(s: State, op: Op)
    requires Orderly(s) && OnKnownStep(s, op) && ForbiddenMove(s, op)
    ensures Apply(s, op) == Outcome(s, Some(InvalidTransition))
  {
    assert SameKeys(s, op.runId);
    FindIsFirst(s.steps[op.runId], op.stepId);
    var k := Find(s.steps[op.runId], op.stepId);
    MovesByTarget(s.steps[op.runId][k].status, op.next);
    StepStatusWrites(s, op);
  }

  /** After any history, what a call answers: it is refused for a missing checkpoint, run or
      step, else for a move its step cannot make, and accepted otherwise; a refused call leaves
      everything as it was. */
  lemma CallAnswers(store: CheckpointStore, ops: seq<Op>, op: Op)
    ensures var s := After(store, ops);
            && (Apply(s, op).error == None <==> OnKnownStep(s, op) && !ForbiddenMove(s, op))
            && (!OnKnownStep(s, op) ==> Apply(s, op) == Outcome(s, Some(Absence(s, op))))
            && (OnKnownStep(s, op) && ForbiddenMove(s, op) ==> Apply(s, op) == Outcome(s, Some(InvalidTransition)))
  {
    var s := After(store, ops);
    HistoryKeepsOrder(store, ops);
    if !OnKnownStep(s, op) {
      UnknownIsRefused(s, op);
    } else if ForbiddenMove(s, op) {
      ForbiddenIsRefused(s, op);
    } else {
      KnownIsAnswered(s, op);
    }
  }

  // ------------------------------------------------------------- effects

  /** The event an accepted call leaves in the log of its run. */
  predicate Logs(op: Op, e: Event)
    requires !op.RestoreCheckpoint?
  {
    && e.runId == op.runId && e.occurredAt == op.at
    && match op
       case CreateRun(_, entrypoint, userId, workspaceId, goal, _, _) =>
         e.stepId == None && e.body == RunCreated(entrypoint, userId, workspaceId, goal)
       case UpdateRunStatus(_, next, payload, _, _) =>
         e.stepId == None && e.body.RunStatusUpdated? && CarriesStatus(e.body.payload, next, payload)
       case CreateStep(_, stepId, title, kind, input, _, _) =>
         e.stepId == Some(stepId) && e.body == StepCreated(title, kind, input)
       case UpdateStepStatus(_, stepId, next, payload, _, _) =>
         e.stepId == Some(stepId) && e.body.StepStatusUpdated? && CarriesStatus(e.body.payload, next, payload)
       case RequestToolCall(_, stepId, toolCallId, toolName, input, _) =>
         e.stepId == Some(stepId) && e.body == ToolCallRequested(toolCallId, toolName, input)
       case CompleteToolCall(_, stepId, toolCallId, output, _) =>
         e.stepId == Some(stepId) && e.body == ToolCallCompleted(toolCallId, output)
       case FailToolCall(_, stepId, toolCallId, failure, _) =>
         e.stepId == Some(stepId) && e.body == ToolCallFailed(toolCallId, failure)
       case EvaluatePolicy(_, stepId, decision, _) =>
         e.stepId == stepId && e.body == PolicyDecided(decision)
       case SaveCheckpoint(_, checkpointId, savedAt, _) =>
         e.stepId == None && e.body == CheckpointSaved(checkpointId, savedAt)
  }

  /** The caller's payload, with the new status under `status` unless the caller has one there. */
  predicate CarriesStatus(logged: Payload, next: StatusName, payload: Payload) {
    && logged.Keys == payload.Keys + {"status"}
    && (forall key :: key in payload ==> logged[key] == payload[key])
    && ("status" !in payload ==> logged["status"] == Name(next))
  }

  /** What the call makes of the run's own record, apart from the time stamp of its event. */
  predicate RunBecomes(op: Op, before: Run, after: Run) {
    after == before.(status := if op.UpdateRunStatus? then op.next else before.status, updatedAt := after.updatedAt)
  }

  /** What the call makes of the run's steps: a new one at the end, the first one with the id
      moved, or nothing. */
  predicate StepsBecome(op: Op, before: seq<Step>, after: seq<Step>) {
    match op
    case CreateStep(runId, stepId, title, kind, input, createdAt, _) =>
      |after| == |before| + 1 && after[..|before|] == before
      && after[|before|] == Step(stepId, runId, title, kind, Queued, input, Null, createdAt, createdAt)
    case UpdateStepStatus(_, stepId, next, payload, now, _) =>
      |after| == |before|
      && forall k :: 0 <= k < |before| ==>
           after[k] == if FirstAt(before, stepId, k)
                       then before[k].(status := next, updatedAt := now,
                                       output := if "output" in payload then payload["output"] else before[k].output)
                       else before[k]
    case _ => after == before
  }

  /** All other runs are as they were. */
  ghost predicate OthersStay(a: State, b: State, runId: string) {
    forall id :: id != runId ==> SameRun(a, b, id)
  }

  lemma StatusPayloadCarries(next: StatusName, payload: Payload)
    ensures CarriesStatus(StatusPayload(next, payload), next, payload)
  {
  }

  /** What an accepted call on a run that was there before leaves behind. */
  ghost predicate Did(s: State, op: Op, after: State)
    requires !op.RestoreCheckpoint? && !op.CreateRun?
  {
    var id := op.runId;
    && id in s.runs && id in s.steps && id in s.events && id in after.runs && id in after.steps && id in after.events
    && |after.events[id]| == |s.events[id]| + 1 && after.events[id][..|s.events[id]|] == s.events[id]
    && Logs(op, after.events[id][|s.events[id]|])
    && RunBecomes(op, s.runs[id], after.runs[id]) && after.runs[id].updatedAt == op.at
    && StepsBecome(op, s.steps[id], after.steps[id])
    && OthersStay(after, s, id)
    && (if op.SaveCheckpoint? then
          after.checkpoints == s.checkpoints[op.checkpointId :=
            Checkpoint(op.checkpointId, s.runs[id], s.steps[id], s.events[id], op.savedAt)]
        else after.checkpoints == s.checkpoints)
  }

  lemma NoteDid(s: State, op: Op, e: Event)
    requires IsToolOp(op) || op.EvaluatePolicy?
    requires op.runId in s.runs && SameKeys(s, op.runId) && Logs(op, e)
    requires Apply(s, op) == Append(s, e)
    ensures Did(s, op, Apply(s, op).state)
  {
    AppendWrites(s, e);
  }

  lemma SaveDid(s: State, op: Op)
    requires op.SaveCheckpoint? && op.runId in s.runs && SameKeys(s, op.runId)
    ensures Did(s, op, Apply(s, op).state)
  {
    var c := Snapshot(s, op.runId, op.checkpointId, op.savedAt);
    AppendWrites(s.(checkpoints := s.checkpoints[op.checkpointId := c]),
                 Event(op.runId, None, CheckpointSaved(op.checkpointId, op.savedAt), op.at));
  }

  lemma RunStatusDid(s: State, op: Op)
    requires op.UpdateRunStatus? && op.runId in s.runs && SameKeys(s, op.runId)
    ensures Did(s, op, Apply(s, op).state)
  {
    RunStatusWrites(s, op);
    StatusPayloadCarries(op.next, op.payload);
  }

  lemma CreateStepDid(s: State, op: Op)
    requires op.CreateStep? && op.runId in s.runs && SameKeys(s, op.runId)
    ensures Did(s, op, Apply(s, op).state)
  {
    CreateStepWrites(s, op);
  }

  lemma StepStatusDid(s: State, op: Op)
    requires op.UpdateStepStatus? && op.runId in s.runs && SameKeys(s, op.runId) && Apply(s, op).error == None
    ensures Did(s, op, Apply(s, op).state)
  {
    FindIsFirst(s.steps[op.runId], op.stepId);
    StepStatusWrites(s, op);
    StatusPayloadCarries(op.next, op.payload);
  }

  /** After any history, an accepted call on an existing run adds exactly its own event to the
      run's log, stamps the run with its time, makes its one change and touches nothing else. */
  lemma AcceptedCallDid(store: CheckpointStore, ops: seq<Op>, op: Op)
    requires !op.RestoreCheckpoint? && !op.CreateRun? && Apply(After(store, ops), op).error == None
    ensures Did(After(store, ops), op, Apply(After(store, ops), op).state)
  {
    var s := After(store, ops);
    HistoryKeepsOrder(store, ops);
    assert SameKeys(s, op.runId);
    CallAnswers(store, ops, op);
    match op
    case UpdateRunStatus(_, _, _, _, _) => RunStatusDid(s, op);
    case CreateStep(_, _, _, _, _, _, _) => CreateStepDid(s, op);
    case UpdateStepStatus(_, _, _, _, _, _) => StepStatusDid(s, op);
    case SaveCheckpoint(_, _, _, _) => SaveDid(s, op);
    case EvaluatePolicy(runId, stepId, decision, at) => NoteDid(s, op, Event(runId, stepId, PolicyDecided(decision), at));
    case RequestToolCall(runId, stepId, _, _, _, at) => ToolDid(s, op);
    case CompleteToolCall(runId, stepId, _, _, at) => ToolDid(s, op);
    case FailToolCall(runId, stepId, _, _, at) => ToolDid(s, op);
  }

  lemma ToolDid(s: State, op: Op)
    requires IsToolOp(op) && op.runId in s.runs && SameKeys(s, op.runId) && Apply(s, op).error == None
    ensures Did(s, op, Apply(s, op).state)
  {
    NoteDid(s, op, Event(op.runId, Some(op.stepId), ToolBody(op), op.at));
  }

  /** A new run starts running, without steps, with one event that tells of it. */
  lemma CreatedRunIs(s: State, op: Op)
    requires op.CreateRun?
    ensures var after := Apply(s, op).state;
            && op.runId in after.runs && op.runId in after.steps && op.runId in after.events
            && after.runs[op.runId] == Run(op.runId, op.entrypoint, op.userId, op.workspaceId, op.goal, Running, op.createdAt, op.at)
            && after.steps[op.runId] == [] && |after.events[op.runId]| == 1 && Logs(op, after.events[op.runId][0])
            && OthersStay(after, s, op.runId) && after.checkpoints == s.checkpoints
  {
    CreateRunWrites(s, op);
  }
}
