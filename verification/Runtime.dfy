/** The event-logged agent runtime as a state machine on values: what each call does to runs,
    steps, logs and stored checkpoints, and what any history of calls guarantees. */
module Runtime {

  import opened Wrappers

  /** Status names; any other string a caller might pass is an `OtherName`. */
  datatype StatusName =
    | Queued
    | Running
    | Planning
    | CallingModel
    | ExecutingTool
    | WaitingInput
    | Blocked
    | Completed
    | Failed
    | Cancelled
    | OtherName(text: string)

  /** The values payloads carry, as far as the runtime looks at them. */
  datatype Value = Null | Name(status: StatusName) | Data(text: string)

  type Payload = map<string, Value>

  datatype Run = Run(
    runId: string,
    entrypoint: string,
    userId: string,
    workspaceId: string,
    goal: string,
    status: StatusName,
    createdAt: int,
    updatedAt: int)

  datatype Step = Step(
    stepId: string,
    runId: string,
    title: string,
    kind: string,
    status: StatusName,
    input: Value,
    output: Value,
    createdAt: int,
    updatedAt: int)

  datatype Body =
    | RunCreated(entrypoint: string, userId: string, workspaceId: string, goal: string)
    | RunStatusUpdated(payload: Payload)
    | StepCreated(title: string, kind: string, input: Value)
    | StepStatusUpdated(payload: Payload)
    | ToolCallRequested(toolCallId: string, toolName: string, input: Value)
    | ToolCallCompleted(toolCallId: string, output: Value)
    | ToolCallFailed(toolCallId: string, error: Value)
    | PolicyDecided(decision: Value)
    | CheckpointSaved(checkpointId: string, savedAt: int)

  datatype Event = Event(runId: string, stepId: Option<string>, body: Body, occurredAt: int)

  datatype Checkpoint = Checkpoint(
    checkpointId: string,
    run: Run,
    steps: seq<Step>,
    events: seq<Event>,
    savedAt: int)

  type CheckpointStore = map<string, Checkpoint>

  datatype State = State(
    runs: map<string, Run>,
    steps: map<string, seq<Step>>,
    events: map<string, seq<Event>>,
    checkpoints: CheckpointStore)

  datatype Error =
    | RunNotFound
    | StepNotFound
    | StepStoreMissing
    | EventStoreMissing
    | InvalidTransition
    | CheckpointNotFound

  datatype Outcome = Outcome(state: State, error: Option<Error>)

  /** The calls. Ids and clock readings (`at` is the event's) are supplied. */
  datatype Op =
    | CreateRun(runId: string, entrypoint: string, userId: string, workspaceId: string, goal: string, createdAt: int, at: int)
    | UpdateRunStatus(runId: string, next: StatusName, payload: Payload, now: int, at: int)
    | CreateStep(runId: string, newStepId: string, title: string, kind: string, input: Value, createdAt: int, at: int)
    | UpdateStepStatus(runId: string, stepId: string, next: StatusName, payload: Payload, now: int, at: int)
    | RequestToolCall(runId: string, stepId: string, toolCallId: string, toolName: string, input: Value, at: int)
    | CompleteToolCall(runId: string, stepId: string, toolCallId: string, output: Value, at: int)
    | FailToolCall(runId: string, stepId: string, toolCallId: string, failure: Value, at: int)
    | EvaluatePolicy(runId: string, policyStepId: Option<string>, decision: Value, at: int)
    | SaveCheckpoint(runId: string, checkpointId: string, savedAt: int, at: int)
    | RestoreCheckpoint(checkpointId: string)

  // ---------------------------------------------------------- the transition table

  function Allowed(from: StatusName): set<StatusName> {
    match from
    case Queued => {Planning, Cancelled}
    case Planning => {CallingModel, ExecutingTool, WaitingInput, Blocked, Failed, Cancelled}
    case CallingModel => {Planning, ExecutingTool, WaitingInput, Blocked, Completed, Failed, Cancelled}
    case ExecutingTool => {Planning, WaitingInput, Blocked, Completed, Failed, Cancelled}
    case WaitingInput => {Planning, Cancelled, Failed}
    case Blocked => {Planning, Cancelled, Failed}
    case _ => {}
  }

  predicate IsTerminal(status: StatusName) {
    status == Completed || status == Failed || status == Cancelled
  }

  // -------------------------------------------------------------- what calls do

  /** The position of the first step with the id, or the length. */
  function Find(steps: seq<Step>, stepId: string): (i: nat)
    ensures i <= |steps|
    ensures i < |steps| ==> steps[i].stepId == stepId
    ensures forall j :: 0 <= j < i ==> steps[j].stepId != stepId
  {
    if steps == [] then 0 else if steps[0].stepId == stepId then 0 else 1 + Find(steps[1..], stepId)
  }

  function RunError(s: State, runId: string): Option<Error> {
    if runId !in s.runs then Some(RunNotFound) else None
  }

  function StepError(s: State, runId: string, stepId: string): Option<Error> {
    if runId !in s.runs then Some(RunNotFound)
    else if runId !in s.steps then Some(StepStoreMissing)
    else if Find(s.steps[runId], stepId) == |s.steps[runId]| then Some(StepNotFound)
    else None
  }

  /** `#appendEvent`: push to the run's log, then stamp the run with the event's time. */
  function Append(s: State, e: Event): Outcome {
    if e.runId !in s.events then Outcome(s, Some(EventStoreMissing))
    else
      var logged := s.(events := s.events[e.runId := s.events[e.runId] + [e]]);
      if e.runId !in s.runs then Outcome(logged, Some(RunNotFound))
      else Outcome(logged.(runs := s.runs[e.runId := s.runs[e.runId].(updatedAt := e.occurredAt)]), None)
  }

  /** The payload of a status event: a `status` key of the caller's own wins. */
  function StatusPayload(next: StatusName, payload: Payload): Payload {
    map["status" := Name(next)] + payload
  }

  function Moved(step: Step, next: StatusName, payload: Payload, now: int): Step {
    step.(status := next, updatedAt := now, output := if "output" in payload then payload["output"] else step.output)
  }

  function Snapshot(s: State, runId: string, checkpointId: string, savedAt: int): Checkpoint
    requires runId in s.runs && runId in s.steps && runId in s.events
  {
    Checkpoint(checkpointId, s.runs[runId], s.steps[runId], s.events[runId], savedAt)
  }

  predicate IsToolOp(op: Op) {
    op.RequestToolCall? || op.CompleteToolCall? || op.FailToolCall?
  }

  function ToolBody(op: Op): Body
    requires IsToolOp(op)
  {
    match op
    case RequestToolCall(_, _, toolCallId, toolName, input, _) => ToolCallRequested(toolCallId, toolName, input)
    case CompleteToolCall(_, _, toolCallId, output, _) => ToolCallCompleted(toolCallId, output)
    case FailToolCall(_, _, toolCallId, failure, _) => ToolCallFailed(toolCallId, failure)
  }

  function Apply(s: State, op: Op): Outcome {
    match op
    case CreateRun(runId, entrypoint, userId, workspaceId, goal, createdAt, at) =>
      var run := Run(runId, entrypoint, userId, workspaceId, goal, Running, createdAt, createdAt);
      Append(s.(runs := s.runs[runId := run], steps := s.steps[runId := []], events := s.events[runId := []]),
             Event(runId, None, RunCreated(entrypoint, userId, workspaceId, goal), at))
    case UpdateRunStatus(runId, next, payload, now, at) =>
      if RunError(s, runId).Some? then Outcome(s, RunError(s, runId))
      else
        Append(s.(runs := s.runs[runId := s.runs[runId].(status := next, updatedAt := now)]),
               Event(runId, None, RunStatusUpdated(StatusPayload(next, payload)), at))
    case CreateStep(runId, stepId, title, kind, input, createdAt, at) =>
      if RunError(s, runId).Some? then Outcome(s, RunError(s, runId))
      else if runId !in s.steps then Outcome(s, Some(StepStoreMissing))
      else
        var step := Step(stepId, runId, title, kind, Queued, input, Null, createdAt, createdAt);
        Append(s.(steps := s.steps[runId := s.steps[runId] + [step]]),
               Event(runId, Some(stepId), StepCreated(title, kind, input), at))
    case UpdateStepStatus(runId, stepId, next, payload, now, at) =>
      if StepError(s, runId, stepId).Some? then Outcome(s, StepError(s, runId, stepId))
      else
        var steps := s.steps[runId];
        var i := Find(steps, stepId);
        if next !in Allowed(steps[i].status) then Outcome(s, Some(InvalidTransition))
        else
          Append(s.(steps := s.steps[runId := steps[i := Moved(steps[i], next, payload, now)]]),
                 Event(runId, Some(stepId), StepStatusUpdated(StatusPayload(next, payload)), at))
    case EvaluatePolicy(runId, stepId, decision, at) =>
      if RunError(s, runId).Some? then Outcome(s, RunError(s, runId))
      else Append(s, Event(runId, stepId, PolicyDecided(decision), at))
    case SaveCheckpoint(runId, checkpointId, savedAt, at) =>
      if RunError(s, runId).Some? then Outcome(s, RunError(s, runId))
      else if runId !in s.steps then Outcome(s, Some(StepStoreMissing))
      else if runId !in s.events then Outcome(s, Some(EventStoreMissing))
      else
        Append(s.(checkpoints := s.checkpoints[checkpointId := Snapshot(s, runId, checkpointId, savedAt)]),
               Event(runId, None, CheckpointSaved(checkpointId, savedAt), at))
    case RestoreCheckpoint(checkpointId) =>
      if checkpointId !in s.checkpoints then Outcome(s, Some(CheckpointNotFound))
      else
        var c := s.checkpoints[checkpointId];
        Outcome(s.(runs := s.runs[c.run.runId := c.run],
                   steps := s.steps[c.run.runId := c.steps],
                   events := s.events[c.run.runId := c.events]), None)
    case _ =>
      if StepError(s, op.runId, op.stepId).Some? then Outcome(s, StepError(s, op.runId, op.stepId))
      else Append(s, Event(op.runId, Some(op.stepId), ToolBody(op), op.at))
  }

  /** The state after a history of calls on a new runtime over a given checkpoint store, which
      other runtimes may have filled. */
  function After(store: CheckpointStore, ops: seq<Op>): State {
    if ops == [] then State(map[], map[], map[], store)
    else Apply(After(store, ops[..|ops| - 1]), ops[|ops| - 1]).state
  }

  lemma AfterSnoc(store: CheckpointStore, ops: seq<Op>, op: Op)
    ensures After(store, ops + [op]) == Apply(After(store, ops), op).state
  {
    assert (ops + [op])[..|ops|] == ops;
  }

  // ------------------------------------------------------------------- replaying

  /** What a log can tell about a run: everything but the objects' own timestamps. */
  datatype RunView = RunView(entrypoint: string, userId: string, workspaceId: string, goal: string, status: Value)

  datatype StepView = StepView(stepId: string, title: string, kind: string, input: Value, status: Value, output: Value)

  datatype View = View(run: RunView, steps: seq<StepView>)

  function ViewStep(step: Step): StepView {
    StepView(step.stepId, step.title, step.kind, step.input, Name(step.status), step.output)
  }

  function ViewSteps(steps: seq<Step>): (views: seq<StepView>)
    ensures |views| == |steps|
    ensures forall i :: 0 <= i < |steps| ==> views[i] == ViewStep(steps[i])
  {
    seq(|steps|, i requires 0 <= i < |steps| => ViewStep(steps[i]))
  }

  function ViewRun(run: Run, steps: seq<Step>): View {
    View(RunView(run.entrypoint, run.userId, run.workspaceId, run.goal, Name(run.status)), ViewSteps(steps))
  }

  function RecordedStatus(payload: Payload): Value {
    if "status" in payload then payload["status"] else Null
  }

  function MarkStep(view: StepView, payload: Payload): StepView {
    view.(status := RecordedStatus(payload), output := if "output" in payload then payload["output"] else view.output)
  }

  /** Marks the first step with the id. */
  function Mark(views: seq<StepView>, stepId: string, payload: Payload): seq<StepView> {
    if views == [] then []
    else if views[0].stepId == stepId then [MarkStep(views[0], payload)] + views[1..]
    else [views[0]] + Mark(views[1..], stepId, payload)
  }

  /** The effect of one event on what is known of the run. */
  function Fold(view: Option<View>, e: Event): Option<View> {
    match (e.body, view)
    case (RunCreated(entrypoint, userId, workspaceId, goal), _) =>
      Some(View(RunView(entrypoint, userId, workspaceId, goal, Name(Running)), []))
    case (RunStatusUpdated(payload), Some(v)) => Some(v.(run := v.run.(status := RecordedStatus(payload))))
    case (StepCreated(title, kind, input), Some(v)) =>
      if e.stepId.None? then view
      else Some(v.(steps := v.steps + [StepView(e.stepId.value, title, kind, input, Name(Queued), Null)]))
    case (StepStatusUpdated(payload), Some(v)) =>
      if e.stepId.None? then view else Some(v.(steps := Mark(v.steps, e.stepId.value, payload)))
    case _ => view
  }

  function Replay(events: seq<Event>): Option<View> {
    if events == [] then None else Fold(Replay(events[..|events| - 1]), events[|events| - 1])
  }

  // --------------------------------------------------------------- the invariant

  /** A run, its steps and its log agree. */
  predicate Agrees(run: Run, steps: seq<Step>, events: seq<Event>) {
    && events != []
    && Replay(events) == Some(ViewRun(run, steps))
    && run.updatedAt == events[|events| - 1].occurredAt
  }

  /** The three maps have entries for the same runs. */
  predicate SameKeys(s: State, id: string) {
    (id in s.runs <==> id in s.steps) && (id in s.runs <==> id in s.events)
  }

  ghost predicate KeysAgree(s: State) {
    forall id {:trigger SameKeys(s, id)} :: SameKeys(s, id)
  }

  predicate GoodCheckpoint(c: Checkpoint) {
    Agrees(c.run, c.steps, c.events)
  }

  ghost predicate GoodStore(store: CheckpointStore) {
    forall id {:trigger GoodCheckpoint(store[id])} :: id in store ==> GoodCheckpoint(store[id])
  }

  predicate GoodRun(s: State, id: string) {
    id in s.runs && id in s.steps && id in s.events && s.runs[id].runId == id && Agrees(s.runs[id], s.steps[id], s.events[id])
  }

  ghost predicate Faithful(s: State) {
    && KeysAgree(s)
    && (forall id {:trigger GoodRun(s, id)} :: id in s.runs ==> GoodRun(s, id))
    && GoodStore(s.checkpoints)
  }

  /** A caller's payload does not contradict the status it comes with. */
  predicate Honest(op: Op) {
    (op.UpdateRunStatus? || op.UpdateStepStatus?) && "status" in op.payload ==> op.payload["status"] == Name(op.next)
  }

  lemma RecordedIffHonest(next: StatusName, payload: Payload)
    ensures RecordedStatus(StatusPayload(next, payload)) == Name(next)
        <==> ("status" in payload ==> payload["status"] == Name(next))
    ensures "output" in StatusPayload(next, payload) <==> "output" in payload
    ensures "output" in payload ==> StatusPayload(next, payload)["output"] == payload["output"]
  {
    assert "output" != "status" by {
      assert "output"[0] == 'o' && "status"[0] == 's';
    }
  }

  lemma {:induction false} MarkAt(views: seq<StepView>, stepId: string, payload: Payload, i: nat)
    requires i < |views| && views[i].stepId == stepId
    requires forall j :: 0 <= j < i ==> views[j].stepId != stepId
    ensures Mark(views, stepId, payload) == views[i := MarkStep(views[i], payload)]
  {
    if i > 0 {
      MarkAt(views[1..], stepId, payload, i - 1);
    }
  }

  lemma ViewOfMoved(step: Step, next: StatusName, payload: Payload, now: int)
    ensures MarkStep(ViewStep(step), StatusPayload(next, payload)) == ViewStep(Moved(step, next, payload, now))
        <==> ("status" in payload ==> payload["status"] == Name(next))
  {
    RecordedIffHonest(next, payload);
  }

  /** Marking the replayed steps is the live update exactly when the payload records the live status. */
  lemma MarkMatches(steps: seq<Step>, stepId: string, next: StatusName, payload: Payload, now: int)
    requires Find(steps, stepId) < |steps|
    ensures var i := Find(steps, stepId);
            Mark(ViewSteps(steps), stepId, StatusPayload(next, payload))
              == ViewSteps(steps[i := Moved(steps[i], next, payload, now)])
            <==> ("status" in payload ==> payload["status"] == Name(next))
  {
    var i, recorded := Find(steps, stepId), StatusPayload(next, payload);
    var views, live := ViewSteps(steps), steps[i := Moved(steps[i], next, payload, now)];
    MarkAt(views, stepId, recorded, i);
    ViewOfMoved(steps[i], next, payload, now);
    assert ViewSteps(live) == views[i := ViewStep(live[i])];
    assert views[i := MarkStep(views[i], recorded)][i] == MarkStep(views[i], recorded);
    assert ViewSteps(live)[i] == ViewStep(live[i]);
  }

  // --------------------------------------------------------- keeping the invariant

  /** The state with one run, its steps and its log replaced. */
  function Written(s: State, id: string, run: Run, steps: seq<Step>, events: seq<Event>): State {
    s.(runs := s.runs[id := run], steps := s.steps[id := steps], events := s.events[id := events])
  }

  /** What appending comes to on a run that exists. */
  lemma AppendWrites(s: State, e: Event)
    requires e.runId in s.runs && e.runId in s.steps && e.runId in s.events
    ensures Append(s, e) == Outcome(
              Written(s, e.runId, s.runs[e.runId].(updatedAt := e.occurredAt), s.steps[e.runId], s.events[e.runId] + [e]),
              None)
  {
    assert s.steps[e.runId := s.steps[e.runId]] == s.steps;
  }

  lemma WrittenIsFaithful(s: State, id: string, run: Run, steps: seq<Step>, events: seq<Event>)
    requires Faithful(s) && run.runId == id
    ensures Faithful(Written(s, id, run, steps, events)) <==> Agrees(run, steps, events)
  {
    var after := Written(s, id, run, steps, events);
    forall other ensures SameKeys(after, other) {
      assert SameKeys(s, other);
    }
    forall other | other in after.runs && other != id ensures GoodRun(after, other) {
      assert GoodRun(s, other) && SameKeys(s, other);
    }
    assert GoodRun(after, id) <==> Agrees(run, steps, events);
  }

  lemma LoggedAgrees(events: seq<Event>, e: Event, run: Run, steps: seq<Step>)
    requires run.updatedAt == e.occurredAt
    ensures Agrees(run, steps, events + [e]) <==> Fold(Replay(events), e) == Some(ViewRun(run, steps))
  {
    assert (events + [e])[..|events|] == events;
  }

  /** One more event on an existing run: the log stays truthful exactly when the event turns the
      old view into the new one. */
  lemma LogAndWrite(s: State, id: string, run: Run, steps: seq<Step>, e: Event)
    requires Faithful(s) && id in s.runs && SameKeys(s, id) && run.runId == id && run.updatedAt == e.occurredAt
    ensures Faithful(Written(s, id, run, steps, s.events[id] + [e]))
        <==> Fold(Some(ViewRun(s.runs[id], s.steps[id])), e) == Some(ViewRun(run, steps))
  {
    assert GoodRun(s, id);
    LoggedAgrees(s.events[id], e, run, steps);
    WrittenIsFaithful(s, id, run, steps, s.events[id] + [e]);
  }

  lemma CreateRunWrites(s: State, op: Op)
    requires op.CreateRun?
    ensures var run := Run(op.runId, op.entrypoint, op.userId, op.workspaceId, op.goal, Running, op.createdAt, op.at);
            var e := Event(op.runId, None, RunCreated(op.entrypoint, op.userId, op.workspaceId, op.goal), op.at);
            Apply(s, op) == Outcome(Written(s, op.runId, run, [], [e]), None)
  {
    var run := Run(op.runId, op.entrypoint, op.userId, op.workspaceId, op.goal, Running, op.createdAt, op.createdAt);
    var e := Event(op.runId, None, RunCreated(op.entrypoint, op.userId, op.workspaceId, op.goal), op.at);
    AppendWrites(Written(s, op.runId, run, [], []), e);
    assert [] + [e] == [e];
  }

  lemma CreateRunKeepsFaith(s: State, op: Op)
    requires Faithful(s) && op.CreateRun?
    ensures Faithful(Apply(s, op).state) && Apply(s, op).error == None
  {
    var run := Run(op.runId, op.entrypoint, op.userId, op.workspaceId, op.goal, Running, op.createdAt, op.at);
    var e := Event(op.runId, None, RunCreated(op.entrypoint, op.userId, op.workspaceId, op.goal), op.at);
    CreateRunWrites(s, op);
    LoggedAgrees([], e, run, []);
    assert [] + [e] == [e] && ViewSteps([]) == [];
    WrittenIsFaithful(s, op.runId, run, [], [e]);
  }

  lemma RunStatusWrites(s: State, op: Op)
    requires op.UpdateRunStatus? && op.runId in s.runs && SameKeys(s, op.runId)
    ensures var run := s.runs[op.runId].(status := op.next, updatedAt := op.at);
            var e := Event(op.runId, None, RunStatusUpdated(StatusPayload(op.next, op.payload)), op.at);
            Apply(s, op) == Outcome(Written(s, op.runId, run, s.steps[op.runId], s.events[op.runId] + [e]), None)
  {
    var mid := s.(runs := s.runs[op.runId := s.runs[op.runId].(status := op.next, updatedAt := op.now)]);
    AppendWrites(mid, Event(op.runId, None, RunStatusUpdated(StatusPayload(op.next, op.payload)), op.at));
  }

  /** A run's status update keeps log and run in agreement exactly when the payload is honest. */
  lemma RunStatusFaithIffHonest(s: State, op: Op)
    requires Faithful(s) && op.UpdateRunStatus? && op.runId in s.runs
    ensures Apply(s, op).error == None
    ensures Faithful(Apply(s, op).state) <==> Honest(op)
  {
    assert SameKeys(s, op.runId) && GoodRun(s, op.runId);
    RunStatusWrites(s, op);
    RecordedIffHonest(op.next, op.payload);
    LogAndWrite(s, op.runId, s.runs[op.runId].(status := op.next, updatedAt := op.at), s.steps[op.runId],
                Event(op.runId, None, RunStatusUpdated(StatusPayload(op.next, op.payload)), op.at));
  }

  function NewStep(op: Op): Step
    requires op.CreateStep?
  {
    Step(op.newStepId, op.runId, op.title, op.kind, Queued, op.input, Null, op.createdAt, op.createdAt)
  }

  lemma CreateStepWrites(s: State, op: Op)
    requires op.CreateStep? && op.runId in s.runs && SameKeys(s, op.runId)
    ensures var e := Event(op.runId, Some(op.newStepId), StepCreated(op.title, op.kind, op.input), op.at);
            Apply(s, op) == Outcome(Written(s, op.runId, s.runs[op.runId].(updatedAt := op.at),
                                            s.steps[op.runId] + [NewStep(op)], s.events[op.runId] + [e]), None)
  {
    var mid := s.(steps := s.steps[op.runId := s.steps[op.runId] + [NewStep(op)]]);
    AppendWrites(mid, Event(op.runId, Some(op.newStepId), StepCreated(op.title, op.kind, op.input), op.at));
  }

  lemma CreateStepKeepsFaith(s: State, op: Op)
    requires Faithful(s) && op.CreateStep? && op.runId in s.runs
    ensures Apply(s, op).error == None && Faithful(Apply(s, op).state)
  {
    assert SameKeys(s, op.runId) && GoodRun(s, op.runId);
    var steps := s.steps[op.runId];
    CreateStepWrites(s, op);
    assert ViewSteps(steps + [NewStep(op)]) == ViewSteps(steps) + [ViewStep(NewStep(op))];
    LogAndWrite(s, op.runId, s.runs[op.runId].(updatedAt := op.at), steps + [NewStep(op)],
                Event(op.runId, Some(op.newStepId), StepCreated(op.title, op.kind, op.input), op.at));
  }

  function LiveSteps(s: State, op: Op): seq<Step>
    requires op.UpdateStepStatus? && StepError(s, op.runId, op.stepId) == None
  {
    var steps := s.steps[op.runId];
    var i := Find(steps, op.stepId);
    steps[i := Moved(steps[i], op.next, op.payload, op.now)]
  }

  lemma StepStatusWrites(s: State, op: Op)
    requires op.UpdateStepStatus? && StepError(s, op.runId, op.stepId) == None && SameKeys(s, op.runId)
    ensures var steps := s.steps[op.runId];
            var e := Event(op.runId, Some(op.stepId), StepStatusUpdated(StatusPayload(op.next, op.payload)), op.at);
            Apply(s, op) ==
              if op.next in Allowed(steps[Find(steps, op.stepId)].status)
              then Outcome(Written(s, op.runId, s.runs[op.runId].(updatedAt := op.at), LiveSteps(s, op),
                                   s.events[op.runId] + [e]), None)
              else Outcome(s, Some(InvalidTransition))
  {
    var mid := s.(steps := s.steps[op.runId := LiveSteps(s, op)]);
    AppendWrites(mid, Event(op.runId, Some(op.stepId), StepStatusUpdated(StatusPayload(op.next, op.payload)), op.at));
  }

  /** The same for a step's status update: it is accepted exactly when the table allows it, and
      then log and step agree exactly when the payload is honest. */
  lemma StepStatusFaithIffHonest(s: State, op: Op)
    requires Faithful(s) && op.UpdateStepStatus? && StepError(s, op.runId, op.stepId) == None
    ensures var steps := s.steps[op.runId];
            (Apply(s, op).error == None <==> op.next in Allowed(steps[Find(steps, op.stepId)].status))
    ensures Apply(s, op).error == None ==> (Faithful(Apply(s, op).state) <==> Honest(op))
    ensures Apply(s, op).error.Some? ==> Apply(s, op) == Outcome(s, Some(InvalidTransition))
  {
    assert SameKeys(s, op.runId) && GoodRun(s, op.runId);
    StepStatusWrites(s, op);
    MarkMatches(s.steps[op.runId], op.stepId, op.next, op.payload, op.now);
    LogAndWrite(s, op.runId, s.runs[op.runId].(updatedAt := op.at), LiveSteps(s, op),
                Event(op.runId, Some(op.stepId), StepStatusUpdated(StatusPayload(op.next, op.payload)), op.at));
  }

  /** An event that changes nothing but the log. */
  predicate IsNote(body: Body) {
    body.ToolCallRequested? || body.ToolCallCompleted? || body.ToolCallFailed? || body.PolicyDecided? || body.CheckpointSaved?
  }

  lemma NoteKeepsFaith(s: State, e: Event)
    requires Faithful(s) && e.runId in s.runs && IsNote(e.body)
    ensures Append(s, e).error == None && Faithful(Append(s, e).state)
  {
    assert SameKeys(s, e.runId) && GoodRun(s, e.runId);
    AppendWrites(s, e);
    LogAndWrite(s, e.runId, s.runs[e.runId].(updatedAt := e.occurredAt), s.steps[e.runId], e);
  }

  lemma StoringKeepsFaith(s: State, id: string, c: Checkpoint)
    requires Faithful(s) && GoodCheckpoint(c)
    ensures Faithful(s.(checkpoints := s.checkpoints[id := c]))
  {
    var after := s.(checkpoints := s.checkpoints[id := c]);
    forall other ensures SameKeys(after, other) {
      assert SameKeys(s, other);
    }
    forall other | other in after.runs ensures GoodRun(after, other) {
      assert GoodRun(s, other);
    }
  }

  lemma SaveKeepsFaith(s: State, op: Op)
    requires Faithful(s) && op.SaveCheckpoint? && op.runId in s.runs
    ensures Apply(s, op).error == None && Faithful(Apply(s, op).state)
  {
    assert SameKeys(s, op.runId) && GoodRun(s, op.runId);
    var c := Snapshot(s, op.runId, op.checkpointId, op.savedAt);
    StoringKeepsFaith(s, op.checkpointId, c);
    NoteKeepsFaith(s.(checkpoints := s.checkpoints[op.checkpointId := c]),
                   Event(op.runId, None, CheckpointSaved(op.checkpointId, op.savedAt), op.at));
  }

  lemma RestoreKeepsFaith(s: State, op: Op)
    requires Faithful(s) && op.RestoreCheckpoint? && op.checkpointId in s.checkpoints
    ensures Apply(s, op).error == None && Faithful(Apply(s, op).state)
  {
    var c := s.checkpoints[op.checkpointId];
    assert GoodCheckpoint(c);
    WrittenIsFaithful(s, c.run.runId, c.run, c.steps, c.events);
  }

  /** A call on a run or a step that is not there is refused without any effect. */
  lemma MissingIsRefused(s: State, op: Op)
    requires KeysAgree(s) && !op.CreateRun?
    requires if op.RestoreCheckpoint? then op.checkpointId !in s.checkpoints
             else if op.UpdateStepStatus? || IsToolOp(op) then StepError(s, op.runId, op.stepId).Some?
             else op.runId !in s.runs
    ensures var o := Apply(s, op);
            o.state == s && (o.error == Some(RunNotFound) || o.error == Some(StepNotFound) || o.error == Some(CheckpointNotFound))
  {
    assert op.UpdateStepStatus? || IsToolOp(op) ==> SameKeys(s, op.runId);
  }

  /** One call: refused without any effect, or accepted with the log still telling the truth. The
      two errors about missing stores never occur. */
  lemma StepKeepsFaith(s: State, op: Op)
    requires Faithful(s) && Honest(op)
    ensures Faithful(Apply(s, op).state)
    ensures Apply(s, op).error.Some? ==> Apply(s, op).state == s
    ensures Apply(s, op).error != Some(StepStoreMissing) && Apply(s, op).error != Some(EventStoreMissing)
  {
    if op.CreateRun? {
      CreateRunKeepsFaith(s, op);
    } else if op.RestoreCheckpoint? {
      if op.checkpointId in s.checkpoints { RestoreKeepsFaith(s, op); } else { MissingIsRefused(s, op); }
    } else if op.UpdateStepStatus? {
      if StepError(s, op.runId, op.stepId) == None { StepStatusFaithIffHonest(s, op); } else { MissingIsRefused(s, op); }
    } else if IsToolOp(op) {
      if StepError(s, op.runId, op.stepId) == None {
        NoteKeepsFaith(s, Event(op.runId, Some(op.stepId), ToolBody(op), op.at));
      } else {
        MissingIsRefused(s, op);
      }
    } else if op.runId !in s.runs {
      MissingIsRefused(s, op);
    } else {
      match op
      case UpdateRunStatus(_, _, _, _, _) => RunStatusFaithIffHonest(s, op);
      case CreateStep(_, _, _, _, _, _, _) => CreateStepKeepsFaith(s, op);
      case EvaluatePolicy(runId, stepId, decision, at) =>
        NoteKeepsFaith(s, Event(runId, stepId, PolicyDecided(decision), at));
      case SaveCheckpoint(_, _, _, _) => SaveKeepsFaith(s, op);
    }
  }

  /** In every reachable state, restores included, replaying a run's log rebuilds its status and
      all its steps in order, and the run carries the time of its last event. */
  lemma {:induction false} ReplayRebuildsState(store: CheckpointStore, ops: seq<Op>)
    requires GoodStore(store) && forall i :: 0 <= i < |ops| ==> Honest(ops[i])
    ensures Faithful(After(store, ops))
  {
    if ops != [] {
      ReplayRebuildsState(store, ops[..|ops| - 1]);
      StepKeepsFaith(After(store, ops[..|ops| - 1]), ops[|ops| - 1]);
    }
  }

  /** A status key in the payload is enough to break the agreement. */
  lemma DishonestPayloadMisleadsReplay()
    ensures var ops := [CreateRun("r", "chat", "u", "w", "", 0, 0),
                        UpdateRunStatus("r", Completed, map["status" := Name(Failed)], 1, 1)];
            var s := After(map[], ops);
            && "r" in s.runs && s.runs["r"].status == Completed
            && "r" in s.events && !Faithful(s)
  {
    var create := CreateRun("r", "chat", "u", "w", "", 0, 0);
    var update := UpdateRunStatus("r", Completed, map["status" := Name(Failed)], 1, 1);
    var ops := [create, update];
    assert [create][..0] == [] && ops[..1] == [create];
    var empty := State(map[], map[], map[], map[]);
    assert After(map[], []) == empty;
    var s := Apply(empty, create).state;
    CreateRunKeepsFaith(empty, create);
    assert After(map[], [create]) == s;
    RunStatusFaithIffHonest(s, update);
    assert After(map[], ops) == Apply(s, update).state;
  }
}
