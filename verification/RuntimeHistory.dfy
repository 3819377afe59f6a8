/** What histories of runtime calls guarantee beyond the replay law: recorded statuses follow the
    transition table, terminal steps rest, and checkpoints bring back exactly what they saved. */
module RuntimeHistory {

  import opened Wrappers
  import opened Runtime

  // ------------------------------------------------------- recorded statuses

  function Recorded(e: Event, stepId: string): seq<Value> {
    if e.stepId != Some(stepId) then []
    else
      match e.body
      case StepCreated(_, _, _) => [Name(Queued)]
      case StepStatusUpdated(payload) => [RecordedStatus(payload)]
      case _ => []
  }

  /** The statuses a log records for a step. */
  function Trail(events: seq<Event>, stepId: string): seq<Value> {
    if events == [] then [] else Trail(events[..|events| - 1], stepId) + Recorded(events[|events| - 1], stepId)
  }

  lemma TrailGrows(events: seq<Event>, e: Event, stepId: string)
    ensures Trail(events + [e], stepId) == Trail(events, stepId) + Recorded(e, stepId)
  {
    assert (events + [e])[..|events|] == events;
  }

  predicate Follows(a: Value, b: Value) {
    a.Name? && b.Name? && b.status in Allowed(a.status)
  }

  /** A path from queued in the transition table. */
  predicate IsPath(trail: seq<Value>) {
    trail != [] && trail[0] == Name(Queued) && forall i :: 0 < i < |trail| ==> Follows(trail[i - 1], trail[i])
  }

  /** The log records a path to the step's status, or nothing for an unknown step. */
  predicate GoodTrail(steps: seq<Step>, events: seq<Event>, stepId: string) {
    var i, trail := Find(steps, stepId), Trail(events, stepId);
    if i == |steps| then trail == []
    else IsPath(trail) && trail[|trail| - 1] == Name(steps[i].status)
  }

  predicate DistinctSteps(steps: seq<Step>) {
    forall i, j :: 0 <= i < j < |steps| ==> steps[i].stepId != steps[j].stepId
  }

  ghost predicate GoodTrails(steps: seq<Step>, events: seq<Event>) {
    DistinctSteps(steps) && forall stepId {:trigger GoodTrail(steps, events, stepId)} :: GoodTrail(steps, events, stepId)
  }

  ghost predicate RunTrails(s: State, id: string) {
    id in s.steps && id in s.events ==> GoodTrails(s.steps[id], s.events[id])
  }

  ghost predicate StoreTrails(store: CheckpointStore) {
    forall id {:trigger store[id]} :: id in store ==> GoodTrails(store[id].steps, store[id].events)
  }

  ghost predicate AllTrails(s: State) {
    (forall id {:trigger RunTrails(s, id)} :: RunTrails(s, id)) && StoreTrails(s.checkpoints)
  }

  /** A new step gets an id that no step of its run has. */
  predicate Fresh(s: State, op: Op) {
    op.CreateStep? && op.runId in s.steps ==> Find(s.steps[op.runId], op.newStepId) == |s.steps[op.runId]|
  }

  /** A step's status comes with a payload that does not contradict it. */
  predicate HonestStep(op: Op) {
    op.UpdateStepStatus? ==> Honest(op)
  }

  predicate FreshHistory(store: CheckpointStore, ops: seq<Op>) {
    ops == [] ||
    (FreshHistory(store, ops[..|ops| - 1]) && Fresh(After(store, ops[..|ops| - 1]), ops[|ops| - 1]))
  }

  lemma {:induction false} FindSnoc(steps: seq<Step>, step: Step, stepId: string)
    ensures Find(steps + [step], stepId)
         == if Find(steps, stepId) < |steps| then Find(steps, stepId)
            else if step.stepId == stepId then |steps| else |steps| + 1
  {
    var all := steps + [step];
    if steps == [] {
      assert all[1..] == [];
    } else if steps[0].stepId != stepId {
      assert all[1..] == steps[1..] + [step];
      FindSnoc(steps[1..], step, stepId);
    }
  }

  lemma {:induction false} FindDetermined(a: seq<Step>, b: seq<Step>, stepId: string)
    requires |a| == |b| && forall i :: 0 <= i < |a| ==> a[i].stepId == b[i].stepId
    ensures Find(a, stepId) == Find(b, stepId)
  {
    if a != [] && a[0].stepId != stepId {
      FindDetermined(a[1..], b[1..], stepId);
    }
  }

  lemma NoteKeepsTrails(steps: seq<Step>, events: seq<Event>, e: Event)
    requires GoodTrails(steps, events)
    requires !e.body.StepCreated? && !e.body.StepStatusUpdated?
    ensures GoodTrails(steps, events + [e])
  {
    forall stepId ensures GoodTrail(steps, events + [e], stepId) {
      assert GoodTrail(steps, events, stepId);
      TrailGrows(events, e, stepId);
    }
  }

  lemma CreateKeepsTrails(steps: seq<Step>, events: seq<Event>, step: Step, e: Event)
    requires GoodTrails(steps, events) && Find(steps, step.stepId) == |steps| && step.status == Queued
    requires e.stepId == Some(step.stepId) && e.body.StepCreated?
    ensures GoodTrails(steps + [step], events + [e])
  {
    forall stepId ensures GoodTrail(steps + [step], events + [e], stepId) {
      assert GoodTrail(steps, events, stepId);
      TrailGrows(events, e, stepId);
      FindSnoc(steps, step, stepId);
    }
  }

  lemma PathGrows(trail: seq<Value>, next: StatusName)
    requires IsPath(trail) && Follows(trail[|trail| - 1], Name(next))
    ensures IsPath(trail + [Name(next)])
  {
  }

  /** The trail of the step that moves grows by its new status. */
  lemma MovedTrail(steps: seq<Step>, events: seq<Event>, i: nat, next: StatusName, payload: Payload, now: int, e: Event)
    requires DistinctSteps(steps) && i < |steps| && GoodTrail(steps, events, steps[i].stepId)
    requires next in Allowed(steps[i].status)
    requires e.stepId == Some(steps[i].stepId) && e.body == StepStatusUpdated(StatusPayload(next, payload))
    requires RecordedStatus(StatusPayload(next, payload)) == Name(next)
    ensures GoodTrail(steps[i := Moved(steps[i], next, payload, now)], events + [e], steps[i].stepId)
  {
    var live, stepId := steps[i := Moved(steps[i], next, payload, now)], steps[i].stepId;
    TrailGrows(events, e, stepId);
    FindDetermined(steps, live, stepId);
    assert Find(steps, stepId) == i;
    PathGrows(Trail(events, stepId), next);
  }

  /** The trails of the other steps stay. */
  lemma OtherTrail(steps: seq<Step>, events: seq<Event>, i: nat, moved: Step, e: Event, stepId: string)
    requires i < |steps| && GoodTrail(steps, events, stepId)
    requires moved.stepId == steps[i].stepId != stepId && e.stepId == Some(steps[i].stepId)
    ensures GoodTrail(steps[i := moved], events + [e], stepId)
  {
    var live := steps[i := moved];
    TrailGrows(events, e, stepId);
    FindDetermined(steps, live, stepId);
    assert Find(live, stepId) != i;
  }

  lemma MoveKeepsTrails(steps: seq<Step>, events: seq<Event>, i: nat, next: StatusName, payload: Payload, now: int, e: Event)
    requires GoodTrails(steps, events) && i < |steps| && next in Allowed(steps[i].status)
    requires e.stepId == Some(steps[i].stepId) && e.body == StepStatusUpdated(StatusPayload(next, payload))
    requires RecordedStatus(StatusPayload(next, payload)) == Name(next)
    ensures GoodTrails(steps[i := Moved(steps[i], next, payload, now)], events + [e])
  {
    var live := steps[i := Moved(steps[i], next, payload, now)];
    forall stepId ensures GoodTrail(live, events + [e], stepId) {
      assert GoodTrail(steps, events, stepId);
      if stepId == steps[i].stepId {
        MovedTrail(steps, events, i, next, payload, now, e);
      } else {
        OtherTrail(steps, events, i, Moved(steps[i], next, payload, now), e, stepId);
      }
    }
  }

  lemma WrittenTrails(s: State, id: string, run: Run, steps: seq<Step>, events: seq<Event>)
    requires AllTrails(s) && GoodTrails(steps, events)
    ensures AllTrails(Written(s, id, run, steps, events))
  {
    var after := Written(s, id, run, steps, events);
    forall other ensures RunTrails(after, other) {
      assert RunTrails(s, other);
    }
  }

  lemma StepStatusKeepsTrails(s: State, op: Op)
    requires KeysAgree(s) && AllTrails(s) && Honest(op)
    requires op.UpdateStepStatus? && StepError(s, op.runId, op.stepId) == None
    ensures AllTrails(Apply(s, op).state)
  {
    assert SameKeys(s, op.runId) && RunTrails(s, op.runId);
    var steps, events := s.steps[op.runId], s.events[op.runId];
    StepStatusWrites(s, op);
    RecordedIffHonest(op.next, op.payload);
    var i := Find(steps, op.stepId);
    if op.next in Allowed(steps[i].status) {
      var e := Event(op.runId, Some(op.stepId), StepStatusUpdated(StatusPayload(op.next, op.payload)), op.at);
      MoveKeepsTrails(steps, events, i, op.next, op.payload, op.now, e);
      WrittenTrails(s, op.runId, s.runs[op.runId].(updatedAt := op.at), LiveSteps(s, op), events + [e]);
    }
  }

  lemma CreateStepKeepsTrails(s: State, op: Op)
    requires KeysAgree(s) && AllTrails(s) && Fresh(s, op) && op.CreateStep? && op.runId in s.runs
    ensures AllTrails(Apply(s, op).state)
  {
    assert SameKeys(s, op.runId) && RunTrails(s, op.runId);
    var steps, events := s.steps[op.runId], s.events[op.runId];
    var e := Event(op.runId, Some(op.newStepId), StepCreated(op.title, op.kind, op.input), op.at);
    CreateStepWrites(s, op);
    CreateKeepsTrails(steps, events, NewStep(op), e);
    WrittenTrails(s, op.runId, s.runs[op.runId].(updatedAt := op.at), steps + [NewStep(op)], events + [e]);
  }

  lemma NoteOnStateKeepsTrails(s: State, e: Event)
    requires KeysAgree(s) && AllTrails(s) && e.runId in s.runs && IsNote(e.body)
    ensures AllTrails(Append(s, e).state)
  {
    assert SameKeys(s, e.runId) && RunTrails(s, e.runId);
    AppendWrites(s, e);
    NoteKeepsTrails(s.steps[e.runId], s.events[e.runId], e);
    WrittenTrails(s, e.runId, s.runs[e.runId].(updatedAt := e.occurredAt), s.steps[e.runId], s.events[e.runId] + [e]);
  }

  lemma RunStatusKeepsTrails(s: State, op: Op)
    requires KeysAgree(s) && AllTrails(s) && op.UpdateRunStatus? && op.runId in s.runs
    ensures AllTrails(Apply(s, op).state)
  {
    assert SameKeys(s, op.runId) && RunTrails(s, op.runId);
    var steps, events := s.steps[op.runId], s.events[op.runId];
    var e := Event(op.runId, None, RunStatusUpdated(StatusPayload(op.next, op.payload)), op.at);
    RunStatusWrites(s, op);
    NoteKeepsTrails(steps, events, e);
    WrittenTrails(s, op.runId, s.runs[op.runId].(status := op.next, updatedAt := op.at), steps, events + [e]);
  }

  lemma CreateRunKeepsTrails(s: State, op: Op)
    requires AllTrails(s) && op.CreateRun?
    ensures AllTrails(Apply(s, op).state)
  {
    var run := Run(op.runId, op.entrypoint, op.userId, op.workspaceId, op.goal, Running, op.createdAt, op.at);
    var e := Event(op.runId, None, RunCreated(op.entrypoint, op.userId, op.workspaceId, op.goal), op.at);
    CreateRunWrites(s, op);
    assert GoodTrails([], []);
    NoteKeepsTrails([], [], e);
    assert [] + [e] == [e];
    WrittenTrails(s, op.runId, run, [], [e]);
  }

  lemma SaveKeepsTrails(s: State, op: Op)
    requires KeysAgree(s) && AllTrails(s) && op.SaveCheckpoint? && op.runId in s.runs
    ensures AllTrails(Apply(s, op).state)
  {
    assert SameKeys(s, op.runId) && RunTrails(s, op.runId);
    var c := Snapshot(s, op.runId, op.checkpointId, op.savedAt);
    var mid := s.(checkpoints := s.checkpoints[op.checkpointId := c]);
    forall other ensures RunTrails(mid, other) && SameKeys(mid, other) {
      assert RunTrails(s, other) && SameKeys(s, other);
    }
    NoteOnStateKeepsTrails(mid, Event(op.runId, None, CheckpointSaved(op.checkpointId, op.savedAt), op.at));
  }

  lemma StepKeepsTrails(s: State, op: Op)
    requires KeysAgree(s) && AllTrails(s) && HonestStep(op) && Fresh(s, op)
    ensures AllTrails(Apply(s, op).state)
  {
    if op.CreateRun? {
      CreateRunKeepsTrails(s, op);
    } else if op.RestoreCheckpoint? {
      if op.checkpointId in s.checkpoints {
        var c := s.checkpoints[op.checkpointId];
        WrittenTrails(s, c.run.runId, c.run, c.steps, c.events);
      }
    } else if op.UpdateStepStatus? {
      if StepError(s, op.runId, op.stepId) == None {
        StepStatusKeepsTrails(s, op);
      }
    } else if IsToolOp(op) {
      if StepError(s, op.runId, op.stepId) == None {
        NoteOnStateKeepsTrails(s, Event(op.runId, Some(op.stepId), ToolBody(op), op.at));
      }
    } else if op.runId in s.runs {
      match op
      case UpdateRunStatus(_, _, _, _, _) => RunStatusKeepsTrails(s, op);
      case CreateStep(_, _, _, _, _, _, _) => CreateStepKeepsTrails(s, op);
      case EvaluatePolicy(runId, stepId, decision, at) =>
        NoteOnStateKeepsTrails(s, Event(runId, stepId, PolicyDecided(decision), at));
      case SaveCheckpoint(_, _, _, _) => SaveKeepsTrails(s, op);
    }
  }

  lemma {:induction false} HistoryKeepsTrails(store: CheckpointStore, ops: seq<Op>)
    requires StoreTrails(store)
    requires forall i :: 0 <= i < |ops| ==> HonestStep(ops[i])
    requires FreshHistory(store, ops)
    ensures AllTrails(After(store, ops))
  {
    if ops != [] {
      var init := ops[..|ops| - 1];
      HistoryKeepsTrails(store, init);
      HistoryKeepsOrder(store, init);
      StepKeepsTrails(After(store, init), ops[|ops| - 1]);
    }
  }

  /** A path to completed starts queued, planning, and arrives from a model or a tool call. */
  lemma PathToCompleted(trail: seq<Value>)
    requires IsPath(trail) && trail[|trail| - 1] == Name(Completed)
    ensures |trail| >= 3 && trail[1] == Name(Planning)
    ensures trail[|trail| - 2] == Name(CallingModel) || trail[|trail| - 2] == Name(ExecutingTool)
  {
    assert Follows(trail[0], trail[1]);
    assert Follows(trail[|trail| - 2], trail[|trail| - 1]);
    assert |trail| > 2 ==> Follows(trail[1], trail[2]);
  }

  /** In every reachable state each step's recorded statuses are a path of the table that ends in
      its status; a completed step went through planning and came from a model or tool call. */
  lemma StatusesFollowTable(store: CheckpointStore, ops: seq<Op>, runId: string, i: nat)
    requires StoreTrails(store)
    requires forall k :: 0 <= k < |ops| ==> HonestStep(ops[k])
    requires FreshHistory(store, ops)
    requires runId in After(store, ops).steps && i < |After(store, ops).steps[runId]|
    ensures runId in After(store, ops).events
    ensures var step := After(store, ops).steps[runId][i];
            var trail := Trail(After(store, ops).events[runId], step.stepId);
            && IsPath(trail) && trail[|trail| - 1] == Name(step.status)
            && (step.status == Completed ==>
                  && |trail| >= 3 && trail[1] == Name(Planning)
                  && (trail[|trail| - 2] == Name(CallingModel) || trail[|trail| - 2] == Name(ExecutingTool)))
  {
    HistoryKeepsTrails(store, ops);
    HistoryKeepsOrder(store, ops);
    var s := After(store, ops);
    assert SameKeys(s, runId) && RunTrails(s, runId);
    var steps, step := s.steps[runId], s.steps[runId][i];
    assert GoodTrail(steps, s.events[runId], step.stepId);
    assert Find(steps, step.stepId) == i;
    if step.status == Completed {
      PathToCompleted(Trail(s.events[runId], step.stepId));
    }
  }

  // ----------------------------------------------------------- every call, any payload

  predicate OwnId(s: State, id: string) {
    id in s.runs ==> s.runs[id].runId == id
  }

  /** The three maps have the same keys, and every run is filed under its own id. */
  ghost predicate Orderly(s: State) {
    KeysAgree(s) && forall id {:trigger OwnId(s, id)} :: OwnId(s, id)
  }

  lemma WrittenIsOrderly(s: State, id: string, run: Run, steps: seq<Step>, events: seq<Event>)
    requires Orderly(s) && run.runId == id
    ensures Orderly(Written(s, id, run, steps, events))
  {
    var after := Written(s, id, run, steps, events);
    forall other ensures SameKeys(after, other) && OwnId(after, other) {
      assert SameKeys(s, other) && OwnId(s, other);
    }
  }

  lemma NoteKeepsOrder(s: State, e: Event)
    requires Orderly(s) && e.runId in s.runs
    ensures Orderly(Append(s, e).state) && Append(s, e).error == None
  {
    assert SameKeys(s, e.runId) && OwnId(s, e.runId);
    AppendWrites(s, e);
    WrittenIsOrderly(s, e.runId, s.runs[e.runId].(updatedAt := e.occurredAt), s.steps[e.runId], s.events[e.runId] + [e]);
  }

  lemma UpdateKeepsOrder(s: State, op: Op)
    requires Orderly(s) && (op.UpdateRunStatus? || op.CreateStep?) && op.runId in s.runs
    ensures Orderly(Apply(s, op).state) && Apply(s, op).error == None
  {
    var id := op.runId;
    assert SameKeys(s, id) && OwnId(s, id);
    if op.UpdateRunStatus? {
      RunStatusWrites(s, op);
      WrittenIsOrderly(s, id, Apply(s, op).state.runs[id], s.steps[id], Apply(s, op).state.events[id]);
    } else {
      CreateStepWrites(s, op);
      WrittenIsOrderly(s, id, Apply(s, op).state.runs[id], Apply(s, op).state.steps[id], Apply(s, op).state.events[id]);
    }
  }

  lemma MoveKeepsOrder(s: State, op: Op)
    requires Orderly(s) && op.UpdateStepStatus? && StepError(s, op.runId, op.stepId) == None
    ensures Orderly(Apply(s, op).state)
    ensures Apply(s, op).error == None || Apply(s, op) == Outcome(s, Some(InvalidTransition))
  {
    var id := op.runId;
    assert SameKeys(s, id) && OwnId(s, id);
    StepStatusWrites(s, op);
    if Apply(s, op).error == None {
      WrittenIsOrderly(s, id, Apply(s, op).state.runs[id], LiveSteps(s, op), Apply(s, op).state.events[id]);
    }
  }

  lemma CheckpointCallsKeepOrder(s: State, op: Op)
    requires Orderly(s)
    requires (op.SaveCheckpoint? && op.runId in s.runs) || (op.RestoreCheckpoint? && op.checkpointId in s.checkpoints)
    ensures Orderly(Apply(s, op).state) && Apply(s, op).error == None
  {
    if op.SaveCheckpoint? {
      assert SameKeys(s, op.runId);
      var stored := s.(checkpoints := s.checkpoints[op.checkpointId := Snapshot(s, op.runId, op.checkpointId, op.savedAt)]);
      forall id ensures SameKeys(stored, id) && OwnId(stored, id) {
        assert SameKeys(s, id) && OwnId(s, id);
      }
      NoteKeepsOrder(stored, Event(op.runId, None, CheckpointSaved(op.checkpointId, op.savedAt), op.at));
    } else {
      var c := s.checkpoints[op.checkpointId];
      WrittenIsOrderly(s, c.run.runId, c.run, c.steps, c.events);
    }
  }

  /** Any call with any payload: the maps keep equal key sets, a refused call changes nothing,
      and the two errors about missing stores never occur. */
  lemma StepKeepsOrder(s: State, op: Op)
    requires Orderly(s)
    ensures Orderly(Apply(s, op).state)
    ensures Apply(s, op).error.Some? ==> Apply(s, op).state == s
    ensures Apply(s, op).error != Some(StepStoreMissing) && Apply(s, op).error != Some(EventStoreMissing)
  {
    if op.CreateRun? {
      CreateRunWrites(s, op);
      WrittenIsOrderly(s, op.runId, Apply(s, op).state.runs[op.runId], [], Apply(s, op).state.events[op.runId]);
    } else if op.RestoreCheckpoint? {
      if op.checkpointId in s.checkpoints { CheckpointCallsKeepOrder(s, op); } else { MissingIsRefused(s, op); }
    } else if op.UpdateStepStatus? {
      if StepError(s, op.runId, op.stepId) == None { MoveKeepsOrder(s, op); } else { MissingIsRefused(s, op); }
    } else if IsToolOp(op) {
      if StepError(s, op.runId, op.stepId) == None {
        NoteKeepsOrder(s, Event(op.runId, Some(op.stepId), ToolBody(op), op.at));
      } else {
        MissingIsRefused(s, op);
      }
    } else if op.runId !in s.runs {
      MissingIsRefused(s, op);
    } else if op.EvaluatePolicy? {
      NoteKeepsOrder(s, Event(op.runId, op.policyStepId, PolicyDecided(op.decision), op.at));
    } else if op.SaveCheckpoint? {
      CheckpointCallsKeepOrder(s, op);
    } else {
      UpdateKeepsOrder(s, op);
    }
  }

  /** Every history over every store, whatever it held and whatever payloads were passed. */
  lemma {:induction false} HistoryKeepsOrder(store: CheckpointStore, ops: seq<Op>)
    ensures Orderly(After(store, ops))
  {
    if ops != [] {
      HistoryKeepsOrder(store, ops[..|ops| - 1]);
      StepKeepsOrder(After(store, ops[..|ops| - 1]), ops[|ops| - 1]);
    }
  }

  // ---------------------------------------------------------- terminal steps rest

  /** The call replaces the whole run: a restore of one of its checkpoints, or a new run. */
  predicate Replaces(s: State, op: Op, runId: string) {
    || (op.CreateRun? && op.runId == runId)
    || (op.RestoreCheckpoint? && op.checkpointId in s.checkpoints && s.checkpoints[op.checkpointId].run.runId == runId)
  }

  predicate RestsAt(s: State, runId: string, i: nat, step: Step) {
    runId in s.steps && i < |s.steps[runId]| && s.steps[runId][i] == step
  }

  lemma TerminalStepRests(s: State, op: Op, runId: string, i: nat, step: Step)
    requires Orderly(s) && RestsAt(s, runId, i, step) && IsTerminal(step.status) && !Replaces(s, op, runId)
    ensures RestsAt(Apply(s, op).state, runId, i, step)
  {
    if op.UpdateStepStatus? && StepError(s, op.runId, op.stepId) == None {
      assert SameKeys(s, op.runId);
      StepStatusWrites(s, op);
    }
  }

  predicate NeverReplaces(store: CheckpointStore, ops: seq<Op>, more: seq<Op>, runId: string)
    decreases |more|
  {
    more == [] ||
    (!Replaces(After(store, ops), more[0], runId) && NeverReplaces(store, ops + [more[0]], more[1..], runId))
  }

  lemma TerminalStepNext(store: CheckpointStore, ops: seq<Op>, op: Op, runId: string, i: nat, step: Step)
    requires RestsAt(After(store, ops), runId, i, step) && IsTerminal(step.status)
    requires !Replaces(After(store, ops), op, runId)
    ensures RestsAt(After(store, ops + [op]), runId, i, step)
  {
    HistoryKeepsOrder(store, ops);
    TerminalStepRests(After(store, ops), op, runId, i, step);
    AfterSnoc(store, ops, op);
  }

  /** A terminal step stays exactly as it is until its whole run is replaced. */
  lemma {:induction false} TerminalStepsRest(store: CheckpointStore, ops: seq<Op>, more: seq<Op>, runId: string, i: nat, step: Step)
    requires RestsAt(After(store, ops), runId, i, step) && IsTerminal(step.status)
    requires NeverReplaces(store, ops, more, runId)
    ensures RestsAt(After(store, ops + more), runId, i, step)
    decreases |more|
  {
    if more == [] {
      assert ops + more == ops;
    } else {
      TerminalStepNext(store, ops, more[0], runId, i, step);
      TerminalStepsRest(store, ops + [more[0]], more[1..], runId, i, step);
      assert ops + more == ops + [more[0]] + more[1..];
    }
  }

  // ------------------------------------------------------------------ checkpoints

  predicate Resaves(op: Op, checkpointId: string) {
    op.SaveCheckpoint? && op.checkpointId == checkpointId
  }

  predicate Stored(s: State, checkpointId: string, c: Checkpoint) {
    checkpointId in s.checkpoints && s.checkpoints[checkpointId] == c
  }

  lemma StoredStays(s: State, op: Op, checkpointId: string, c: Checkpoint)
    requires Stored(s, checkpointId, c) && !Resaves(op, checkpointId)
    ensures Stored(Apply(s, op).state, checkpointId, c)
  {
  }

  lemma StoredNext(store: CheckpointStore, ops: seq<Op>, op: Op, checkpointId: string, c: Checkpoint)
    requires Stored(After(store, ops), checkpointId, c) && !Resaves(op, checkpointId)
    ensures Stored(After(store, ops + [op]), checkpointId, c)
  {
    StoredStays(After(store, ops), op, checkpointId, c);
    AfterSnoc(store, ops, op);
  }

  /** A stored checkpoint never changes, whatever is done afterwards. */
  lemma {:induction false} StoredNeverChanges(store: CheckpointStore, ops: seq<Op>, more: seq<Op>, checkpointId: string, c: Checkpoint)
    requires Stored(After(store, ops), checkpointId, c)
    requires forall i :: 0 <= i < |more| ==> !Resaves(more[i], checkpointId)
    ensures Stored(After(store, ops + more), checkpointId, c)
    decreases |more|
  {
    if more == [] {
      assert ops + more == ops;
    } else {
      var init, last := more[..|more| - 1], more[|more| - 1];
      StoredNeverChanges(store, ops, init, checkpointId, c);
      StoredNext(store, ops + init, last, checkpointId, c);
      assert ops + more == ops + init + [last];
    }
  }

  /** The three parts of one run are the same in two states. */
  predicate SameRun(a: State, b: State, id: string) {
    && (id in a.runs <==> id in b.runs) && (id in a.runs && id in b.runs ==> a.runs[id] == b.runs[id])
    && (id in a.steps <==> id in b.steps) && (id in a.steps && id in b.steps ==> a.steps[id] == b.steps[id])
    && (id in a.events <==> id in b.events) && (id in a.events && id in b.events ==> a.events[id] == b.events[id])
  }

  lemma SaveStores(s: State, op: Op)
    requires op.SaveCheckpoint? && op.runId in s.runs && SameKeys(s, op.runId)
    ensures op.checkpointId in Apply(s, op).state.checkpoints
    ensures Apply(s, op).state.checkpoints[op.checkpointId] == Snapshot(s, op.runId, op.checkpointId, op.savedAt)
  {
  }

  /** Save, anything, restore: the run is back exactly as it was when saved, without the event
      of the save itself, and no other run is touched by the restore. */
  lemma RestoreBringsBackSaved(store: CheckpointStore, ops: seq<Op>, save: Op, more: seq<Op>)
    requires save.SaveCheckpoint? && save.runId in After(store, ops).runs
    requires forall i :: 0 <= i < |more| ==> !Resaves(more[i], save.checkpointId)
    ensures var before := After(store, ops + [save] + more);
            var restore := Apply(before, RestoreCheckpoint(save.checkpointId));
            && restore.error == None
            && SameRun(restore.state, After(store, ops), save.runId)
            && (forall id :: id != save.runId ==> SameRun(restore.state, before, id))
            && restore.state.checkpoints == before.checkpoints
  {
    var s := After(store, ops);
    HistoryKeepsOrder(store, ops);
    assert SameKeys(s, save.runId) && OwnId(s, save.runId);
    var saved := ops + [save];
    assert saved[..|saved| - 1] == ops;
    SaveStores(s, save);
    StoredNeverChanges(store, saved, more, save.checkpointId, After(store, saved).checkpoints[save.checkpointId]);
    RestoreIs(After(store, saved + more), save.checkpointId);
  }

  lemma RestoreIs(s: State, checkpointId: string)
    requires checkpointId in s.checkpoints
    ensures var c, o := s.checkpoints[checkpointId], Apply(s, RestoreCheckpoint(checkpointId));
            && o.error == None && o.state.checkpoints == s.checkpoints
            && c.run.runId in o.state.runs && o.state.runs[c.run.runId] == c.run
            && c.run.runId in o.state.steps && o.state.steps[c.run.runId] == c.steps
            && c.run.runId in o.state.events && o.state.events[c.run.runId] == c.events
            && (forall id :: id != c.run.runId ==> SameRun(o.state, s, id))
  {
  }
}
