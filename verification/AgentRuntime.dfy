/** The runtime and its checkpoint store as objects that update run and step records in place.
    Each method is proved against the value-level call of module Runtime; what a method returns
    or stores is a deep copy, so nothing outside can reach the runtime's or the store's records. */
module AgentRuntime {

  import opened Wrappers
  import opened Runtime
  import opened RuntimeHistory

  class RunObject {
    const runId: string
    const entrypoint: string
    const userId: string
    const workspaceId: string
    const goal: string
    const createdAt: int
    var status: StatusName
    var updatedAt: int

    constructor (v: Run)
      ensures Value() == v
    {
      runId, entrypoint, userId, workspaceId, goal := v.runId, v.entrypoint, v.userId, v.workspaceId, v.goal;
      createdAt, status, updatedAt := v.createdAt, v.status, v.updatedAt;
    }

    function Value(): Run
      reads this
    {
      Run(runId, entrypoint, userId, workspaceId, goal, status, createdAt, updatedAt)
    }
  }

  class StepObject {
    const stepId: string
    const runId: string
    const title: string
    const kind: string
    const input: Value
    const createdAt: int
    var status: StatusName
    var output: Value
    var updatedAt: int
    /** The run under which the object was made; tells the steps of different runs apart. */
    ghost const home: string

    constructor (v: Step, ghost home: string)
      ensures Value() == v && this.home == home
    {
      stepId, runId, title, kind, input := v.stepId, v.runId, v.title, v.kind, v.input;
      createdAt, status, output, updatedAt := v.createdAt, v.status, v.output, v.updatedAt;
      this.home := home;
    }

    function Value(): Step
      reads this
    {
      Step(stepId, runId, title, kind, status, input, output, createdAt, updatedAt)
    }
  }

  ghost predicate Hold(objects: seq<StepObject>, values: seq<Step>)
    reads objects
  {
    |objects| == |values| && forall i :: 0 <= i < |objects| ==> objects[i].Value() == values[i]
  }

  /** Separate objects, all made for one run. */
  ghost predicate Separate(objects: seq<StepObject>, home: string) {
    && (forall i :: 0 <= i < |objects| ==> objects[i].home == home)
    && (forall i, j :: 0 <= i < j < |objects| ==> objects[i] != objects[j])
  }

  /** `structuredClone` of a list of steps. */
  method CloneSteps(objects: seq<StepObject>, ghost values: seq<Step>, ghost home: string) returns (copy: seq<StepObject>)
    requires Hold(objects, values)
    ensures Hold(copy, values) && Separate(copy, home) && fresh(copy)
  {
    copy := [];
    for i := 0 to |objects|
      invariant Hold(copy, values[..i]) && Separate(copy, home) && fresh(copy)
      invariant Hold(objects, values)
    {
      var o := new StepObject(objects[i].Value(), home);
      copy := copy + [o];
    }
    assert values[..|objects|] == values;
  }

  /** A checkpoint made of objects. */
  datatype Record = Record(checkpointId: string, run: RunObject, steps: seq<StepObject>, events: seq<Event>, savedAt: int)

  ghost predicate Records(r: Record, c: Checkpoint)
    reads r.run, r.steps
  {
    && r.checkpointId == c.checkpointId && r.run.Value() == c.run && Hold(r.steps, c.steps)
    && r.events == c.events && r.savedAt == c.savedAt
  }

  method CloneRecord(r: Record, ghost c: Checkpoint) returns (copy: Record)
    requires Records(r, c)
    ensures Records(copy, c) && fresh(copy.run) && fresh(copy.steps) && Separate(copy.steps, c.run.runId)
  {
    var run := new RunObject(r.run.Value());
    var steps := CloneSteps(r.steps, c.steps, c.run.runId);
    copy := Record(r.checkpointId, run, steps, r.events, r.savedAt);
  }

  class InMemoryCheckpointStore {
    var records: map<string, Record>
    ghost var contents: CheckpointStore
    ghost var repr: set<object>

    ghost predicate Keeps(id: string)
      reads this, repr
    {
      && (id in records <==> id in contents)
      && (id in records ==>
            && records[id].run in repr && (forall i :: 0 <= i < |records[id].steps| ==> records[id].steps[i] in repr)
            && Records(records[id], contents[id]))
    }

    ghost predicate Valid()
      reads this, repr
    {
      this !in repr && forall id {:trigger Keeps(id)} :: Keeps(id)
    }

    constructor ()
      ensures Valid() && contents == map[] && repr == {}
    {
      records, contents, repr := map[], map[], {};
    }

    /** Stores a deep copy. */
    method Save(r: Record, ghost c: Checkpoint)
      requires Valid() && Records(r, c)
      modifies this
      ensures Valid() && contents == old(contents)[c.checkpointId := c]
      ensures fresh(repr - old(repr)) && old(repr) <= repr
    {
      var copy := CloneRecord(r, c);
      records := records[r.checkpointId := copy];
      contents := contents[c.checkpointId := c];
      repr := repr + {copy.run} + (set s | s in copy.steps);
      forall id ensures Keeps(id) {
        assert old(Keeps(id));
      }
    }

    /** Hands out a deep copy. */
    method Get(id: string) returns (r: Option<Record>)
      requires Valid()
      ensures r.None? <==> id !in contents
      ensures r.Some? ==> Records(r.value, contents[id]) && fresh(r.value.run) && fresh(r.value.steps)
      ensures r.Some? ==> Separate(r.value.steps, contents[id].run.runId)
    {
      assert Keeps(id);
      if id !in records {
        return None;
      }
      var copy := CloneRecord(records[id], contents[id]);
      return Some(copy);
    }
  }

  class AgentRuntime {
    const checkpointStore: InMemoryCheckpointStore
    var runs: map<string, RunObject>
    var stepsByRun: map<string, seq<StepObject>>
    var eventsByRun: map<string, seq<Event>>
    /** The value-level state these objects stand for, and the objects themselves. */
    ghost var state: State
    ghost var repr: set<object>
    /** What the store held at first, and the calls made since. */
    ghost const initial: CheckpointStore
    ghost var history: seq<Op>

    /** One run's objects hold its values, and belong to the runtime alone. */
    ghost predicate Live(id: string)
      reads this, repr
    {
      && (id in runs <==> id in state.runs) && (id in stepsByRun <==> id in state.steps)
      && SameKeys(state, id)
      && (id in runs ==> runs[id] in repr && runs[id].runId == id && runs[id].Value() == state.runs[id])
      && (id in stepsByRun ==>
            && (forall i :: 0 <= i < |stepsByRun[id]| ==> stepsByRun[id][i] in repr)
            && Hold(stepsByRun[id], state.steps[id]) && Separate(stepsByRun[id], id))
    }

    /** The objects hold the state and belong to the runtime and the store alone. */
    ghost predicate Sound()
      reads this, repr, checkpointStore, checkpointStore.repr
    {
      && this !in repr && checkpointStore !in repr && this !in checkpointStore.repr
      && repr !! checkpointStore.repr
      && checkpointStore.Valid() && state.checkpoints == checkpointStore.contents
      && eventsByRun == state.events
      && forall id {:trigger Live(id)} :: Live(id)
    }

    /** Sound, in the state its history of calls leads to. */
    ghost predicate Valid()
      reads this, repr, checkpointStore, checkpointStore.repr
    {
      Sound() && state == After(initial, history)
    }

    /** Records a call that is about to be made. */
    ghost method Note(op: Op)
      requires Valid()
      modifies this`history
      ensures Sound() && history == old(history) + [op] && After(initial, history) == Apply(state, op).state
    {
      history := history + [op];
      AfterSnoc(initial, old(history), op);
      forall id ensures Live(id) {
        assert old(Live(id));
      }
    }

    /** A new runtime over a store that may already hold checkpoints. */
    constructor (store: InMemoryCheckpointStore)
      requires store.Valid()
      ensures Valid() && checkpointStore == store && initial == store.contents && history == [] && repr == {}
    {
      checkpointStore, runs, stepsByRun, eventsByRun, repr := store, map[], map[], map[], {};
      state := State(map[], map[], map[], store.contents);
      initial, history := store.contents, [];
    }

    /** `#appendEvent`, on a run that exists. */
    method AppendEvent(e: Event)
      requires Sound() && e.runId in runs
      modifies this, runs[e.runId]
      ensures Sound() && history == old(history) && Append(old(state), e) == Outcome(state, None)
      ensures repr == old(repr) && runs == old(runs) && stepsByRun == old(stepsByRun)
    {
      assert Live(e.runId);
      eventsByRun := eventsByRun[e.runId := eventsByRun[e.runId] + [e]];
      runs[e.runId].updatedAt := e.occurredAt;
      state := Append(state, e).state;
      forall id ensures Live(id) {
        assert old(Live(id));
      }
    }

    /** An object that callers may keep and change without the runtime or the store noticing. */
    ghost predicate Outside(o: object)
      reads this, checkpointStore
    {
      o !in repr && o !in checkpointStore.repr && o != this && o != checkpointStore
    }

    ghost predicate OutsideRecord(r: Record)
      reads this, checkpointStore
    {
      Outside(r.run) && forall i :: 0 <= i < |r.steps| ==> Outside(r.steps[i])
    }

    /** What a call with a fresh copy as its result promises. */
    ghost predicate Answers(before: State, op: Op, r: Result<object, Error>)
      reads this, checkpointStore
    {
      var o := Apply(before, op);
      && state == o.state
      && (r.Success? <==> o.error == None) && (r.Failure? ==> o.error == Some(r.error))
      && (r.Success? ==> Outside(r.value))
    }

    /** Puts a run, its steps and its log in place, all at once. */
    method Install(run: RunObject, steps: seq<StepObject>, events: seq<Event>,
                   ghost runValue: Run, ghost stepValues: seq<Step>, ghost owned: set<object>)
      requires Sound() && run.Value() == runValue && Hold(steps, stepValues) && Separate(steps, run.runId)
      requires run in owned && forall i :: 0 <= i < |steps| ==> steps[i] in owned
      requires forall o :: o in owned ==> Outside(o)
      modifies this
      ensures Sound() && history == old(history) && state == Written(old(state), runValue.runId, runValue, stepValues, events)
      ensures runs == old(runs)[run.runId := run] && stepsByRun == old(stepsByRun)[run.runId := steps]
      ensures repr == old(repr) + owned
    {
      var id := run.runId;
      runs := runs[id := run];
      stepsByRun := stepsByRun[id := steps];
      eventsByRun := eventsByRun[id := events];
      state := Written(state, id, runValue, stepValues, events);
      repr := repr + owned;
      assert Live(id);
      forall other ensures Live(other) {
        if other != id {
          assert old(Live(other));
          assert SameKeys(state, other);
        }
      }
    }

    /** Writes a run's status in place. */
    method PutRunStatus(runId: string, next: StatusName, now: int)
      requires Sound() && runId in runs && runId in state.runs
      modifies this`state, runs[runId]
      ensures Sound()
      ensures state == old(state).(runs := old(state).runs[runId := old(state).runs[runId].(status := next, updatedAt := now)])
    {
      assert Live(runId);
      runs[runId].status := next;
      runs[runId].updatedAt := now;
      state := state.(runs := state.runs[runId := state.runs[runId].(status := next, updatedAt := now)]);
      forall id ensures Live(id) {
        assert old(Live(id));
      }
    }

    /** Writes a step's status, and its output if the payload has one, in place. */
    method PutStep(runId: string, k: nat, next: StatusName, payload: Payload, now: int)
      requires Sound() && runId in stepsByRun && k < |stepsByRun[runId]|
      requires runId in state.steps && k < |state.steps[runId]|
      modifies this`state, stepsByRun[runId][k]
      ensures Sound()
      ensures var steps := old(state).steps[runId];
              state == old(state).(steps := old(state).steps[runId := steps[k := Moved(steps[k], next, payload, now)]])
    {
      assert Live(runId);
      var step := stepsByRun[runId][k];
      step.status := next;
      step.updatedAt := now;
      if "output" in payload {
        step.output := payload["output"];
      }
      ghost var steps := state.steps[runId];
      state := state.(steps := state.steps[runId := steps[k := Moved(steps[k], next, payload, now)]]);
      forall id ensures Live(id) {
        assert old(Live(id));
      }
    }

    /** Pushes a new step object. */
    method PushStep(runId: string, step: StepObject, ghost value: Step)
      requires Sound() && runId in stepsByRun && runId in state.steps
      requires Outside(step) && step.home == runId && step.Value() == value
      modifies this`state, this`stepsByRun, this`repr
      ensures Sound() && repr == old(repr) + {step}
      ensures stepsByRun == old(stepsByRun)[runId := old(stepsByRun)[runId] + [step]]
      ensures state == old(state).(steps := old(state).steps[runId := old(state).steps[runId] + [value]])
    {
      assert Live(runId);
      stepsByRun := stepsByRun[runId := stepsByRun[runId] + [step]];
      repr := repr + {step};
      state := state.(steps := state.steps[runId := state.steps[runId] + [value]]);
      forall id ensures Live(id) {
        assert old(Live(id));
      }
    }

    /** Hands a checkpoint to the store. */
    method StoreRecord(r: Record, ghost c: Checkpoint)
      requires Sound() && Records(r, c)
      modifies this`state, checkpointStore
      ensures Sound() && state == old(state).(checkpoints := old(state).checkpoints[c.checkpointId := c])
      ensures fresh(checkpointStore.repr - old(checkpointStore.repr))
    {
      checkpointStore.Save(r, c);
      state := state.(checkpoints := state.checkpoints[c.checkpointId := c]);
      forall id ensures Live(id) {
        assert old(Live(id));
      }
    }

    method CopyRun(runId: string) returns (copy: RunObject)
      requires Sound() && runId in runs
      ensures fresh(copy) && runId in state.runs && copy.Value() == state.runs[runId]
    {
      assert Live(runId);
      copy := new RunObject(runs[runId].Value());
    }

    method CopyStep(runId: string, k: nat) returns (copy: StepObject)
      requires Sound() && runId in stepsByRun && k < |stepsByRun[runId]|
      ensures fresh(copy) && runId in state.steps && k < |state.steps[runId]| && copy.Value() == state.steps[runId][k]
    {
      assert Live(runId);
      copy := new StepObject(stepsByRun[runId][k].Value(), runId);
    }

    method CreateRun(runId: string, entrypoint: string, userId: string, workspaceId: string, goal: string, createdAt: int, at: int)
      returns (copy: RunObject)
      requires Valid()
      modifies this
      ensures Valid() && Answers(old(state), Op.CreateRun(runId, entrypoint, userId, workspaceId, goal, createdAt, at), Success(copy))
      ensures fresh(copy) && runId in state.runs && copy.Value() == state.runs[runId]
      ensures fresh(repr - old(repr))
      ensures history == old(history) + [Op.CreateRun(runId, entrypoint, userId, workspaceId, goal, createdAt, at)]
    {
      Note(Op.CreateRun(runId, entrypoint, userId, workspaceId, goal, createdAt, at));
      ghost var value := Run(runId, entrypoint, userId, workspaceId, goal, Running, createdAt, createdAt);
      var run := new RunObject(Run(runId, entrypoint, userId, workspaceId, goal, Running, createdAt, createdAt));
      Install(run, [], [], value, [], {run});
      AppendEvent(Event(runId, None, RunCreated(entrypoint, userId, workspaceId, goal), at));
      copy := CopyRun(runId);
    }

    method UpdateRunStatus(runId: string, next: StatusName, payload: Payload, now: int, at: int)
      returns (r: Result<RunObject, Error>)
      requires Valid()
      modifies this, repr
      ensures Valid() && repr == old(repr) && Answers(old(state), Op.UpdateRunStatus(runId, next, payload, now, at), r)
      ensures r.Success? ==> fresh(r.value) && runId in state.runs && r.value.Value() == state.runs[runId]
      ensures history == old(history) + [Op.UpdateRunStatus(runId, next, payload, now, at)]
    {
      Note(Op.UpdateRunStatus(runId, next, payload, now, at));
      assert Live(runId);
      if runId !in runs {
        return Failure(RunNotFound);
      }
      PutRunStatus(runId, next, now);
      AppendEvent(Event(runId, None, RunStatusUpdated(StatusPayload(next, payload)), at));
      var copy := CopyRun(runId);
      return Success(copy);
    }

    /** A new step: pushed, logged, and a copy of it handed out. */
    method AddStep(runId: string, value: Step, e: Event) returns (copy: StepObject)
      requires Sound() && runId in runs && runId in stepsByRun && runId in state.steps && e.runId == runId
      modifies this, repr
      ensures Sound() && history == old(history) && fresh(repr - old(repr))
      ensures Append(old(state).(steps := old(state).steps[runId := old(state).steps[runId] + [value]]), e)
              == Outcome(state, None)
      ensures fresh(copy) && Outside(copy) && copy.Value() == value
    {
      assert Live(runId);
      var step := new StepObject(value, runId);
      PushStep(runId, step, value);
      AppendEvent(e);
      copy := new StepObject(value, runId);
    }

    method CreateStep(runId: string, stepId: string, title: string, kind: string, input: Value, createdAt: int, at: int)
      returns (r: Result<StepObject, Error>)
      requires Valid()
      modifies this, repr
      ensures Valid() && Answers(old(state), Op.CreateStep(runId, stepId, title, kind, input, createdAt, at), r)
      ensures r.Success? ==> fresh(r.value) && runId in state.steps && state.steps[runId] != []
      ensures r.Success? ==> r.value.Value() == state.steps[runId][|state.steps[runId]| - 1]
      ensures fresh(repr - old(repr))
      ensures history == old(history) + [Op.CreateStep(runId, stepId, title, kind, input, createdAt, at)]
    {
      Note(Op.CreateStep(runId, stepId, title, kind, input, createdAt, at));
      assert Live(runId);
      if runId !in runs {
        return Failure(RunNotFound);
      }
      var value := Step(stepId, runId, title, kind, Queued, input, Null, createdAt, createdAt);
      var copy := AddStep(runId, value, Event(runId, Some(stepId), StepCreated(title, kind, input), at));
      return Success(copy);
    }

    /** `#steps(runId).find(...)`: the first position with the id, or the length. */
    method FindStep(runId: string, stepId: string) returns (k: nat)
      requires Sound() && runId in stepsByRun
      ensures runId in state.steps && k == Find(state.steps[runId], stepId)
    {
      assert Live(runId);
      k := 0;
      while k < |stepsByRun[runId]|
        invariant k <= |stepsByRun[runId]|
        invariant forall j :: 0 <= j < k ==> state.steps[runId][j].stepId != stepId
      {
        assert stepsByRun[runId][k].Value() == state.steps[runId][k];
        if stepsByRun[runId][k].stepId == stepId {
          return;
        }
        k := k + 1;
      }
    }

    /** An allowed move: the step changes in place, the event is logged, a copy is handed out. */
    method MoveStep(runId: string, k: nat, next: StatusName, payload: Payload, now: int, e: Event)
      returns (copy: StepObject)
      requires Sound() && runId in runs && runId in stepsByRun && k < |stepsByRun[runId]| && e.runId == runId
      requires runId in state.steps && k < |state.steps[runId]|
      modifies this, repr
      ensures Sound() && history == old(history) && repr == old(repr)
      ensures var steps := old(state).steps[runId];
              Append(old(state).(steps := old(state).steps[runId := steps[k := Moved(steps[k], next, payload, now)]]), e)
              == Outcome(state, None)
      ensures fresh(copy) && runId in state.steps && k < |state.steps[runId]| && copy.Value() == state.steps[runId][k]
    {
      assert Live(runId);
      PutStep(runId, k, next, payload, now);
      AppendEvent(e);
      copy := CopyStep(runId, k);
    }

    method UpdateStepStatus(runId: string, stepId: string, next: StatusName, payload: Payload, now: int, at: int)
      returns (r: Result<StepObject, Error>)
      requires Valid()
      modifies this, repr
      ensures Valid() && repr == old(repr) && Answers(old(state), Op.UpdateStepStatus(runId, stepId, next, payload, now, at), r)
      ensures r.Success? ==> fresh(r.value) && runId in old(state).steps && runId in state.steps
      ensures r.Success? ==>
                var k := Find(old(state).steps[runId], stepId);
                k < |state.steps[runId]| && r.value.Value() == state.steps[runId][k]
      ensures history == old(history) + [Op.UpdateStepStatus(runId, stepId, next, payload, now, at)]
    {
      Note(Op.UpdateStepStatus(runId, stepId, next, payload, now, at));
      assert Live(runId);
      if runId !in runs {
        return Failure(RunNotFound);
      }
      var k := FindStep(runId, stepId);
      if k == |stepsByRun[runId]| {
        return Failure(StepNotFound);
      }
      var step := stepsByRun[runId][k];
      assert step.Value() == state.steps[runId][k];
      if next !in Allowed(step.status) {
        return Failure(InvalidTransition);
      }
      var copy := MoveStep(runId, k, next, payload, now, Event(runId, Some(stepId), StepStatusUpdated(StatusPayload(next, payload)), at));
      return Success(copy);
    }

    /** `requestToolCall`, `completeToolCall` and `failToolCall`: only the log grows. */
    method LogToolCall(op: Op) returns (error: Option<Error>)
      requires Valid() && IsToolOp(op)
      modifies this, repr
      ensures Valid() && repr == old(repr) && Outcome(state, error) == Apply(old(state), op)
      ensures history == old(history) + [op]
    {
      Note(op);
      assert Live(op.runId);
      if op.runId !in runs {
        return Some(RunNotFound);
      }
      var k := FindStep(op.runId, op.stepId);
      if k == |stepsByRun[op.runId]| {
        return Some(StepNotFound);
      }
      AppendEvent(Event(op.runId, Some(op.stepId), ToolBody(op), op.at));
      return None;
    }

    method EvaluatePolicy(runId: string, stepId: Option<string>, decision: Value, at: int) returns (error: Option<Error>)
      requires Valid()
      modifies this, repr
      ensures Valid() && repr == old(repr)
      ensures Outcome(state, error) == Apply(old(state), Op.EvaluatePolicy(runId, stepId, decision, at))
      ensures history == old(history) + [Op.EvaluatePolicy(runId, stepId, decision, at)]
    {
      Note(Op.EvaluatePolicy(runId, stepId, decision, at));
      assert Live(runId);
      if runId !in runs {
        return Some(RunNotFound);
      }
      AppendEvent(Event(runId, stepId, PolicyDecided(decision), at));
      return None;
    }

    /** `getRun`: a deep copy of the run, its steps and its log. */
    method GetRun(runId: string) returns (r: Result<Record, Error>)
      requires Sound()
      ensures r == Failure(RunNotFound) <==> runId !in state.runs
      ensures r.Success? <==> runId in state.runs
      ensures r.Success? ==>
                && runId in state.steps && runId in state.events
                && fresh(r.value.run) && fresh(r.value.steps) && OutsideRecord(r.value)
                && r.value.run.Value() == state.runs[runId] && Hold(r.value.steps, state.steps[runId])
                && r.value.events == state.events[runId]
    {
      assert Live(runId);
      if runId !in runs {
        return Failure(RunNotFound);
      }
      var run := new RunObject(runs[runId].Value());
      var steps := CloneSteps(stepsByRun[runId], state.steps[runId], runId);
      return Success(Record("", run, steps, eventsByRun[runId], 0));
    }

    /** The saving of a run that exists: the checkpoint goes to the store, then the event to the log. */
    method SaveExisting(checkpoint: Record, ghost c: Checkpoint, e: Event) returns (copy: Record)
      requires Sound() && Records(checkpoint, c) && e.runId in runs && OutsideRecord(checkpoint)
      modifies this, repr, checkpointStore
      ensures Sound() && repr == old(repr) && history == old(history)
      ensures Append(old(state).(checkpoints := old(state).checkpoints[c.checkpointId := c]), e) == Outcome(state, None)
      ensures Records(copy, c) && fresh(copy.run) && fresh(copy.steps) && OutsideRecord(copy)
      ensures fresh(checkpointStore.repr - old(checkpointStore.repr))
    {
      assert Live(e.runId);
      StoreRecord(checkpoint, c);
      AppendEvent(e);
      copy := CloneRecord(checkpoint, c);
    }

    method SaveCheckpoint(runId: string, checkpointId: string, savedAt: int, at: int) returns (r: Result<Record, Error>)
      requires Valid()
      modifies this, repr, checkpointStore
      ensures Valid() && repr == old(repr) && history == old(history) + [Op.SaveCheckpoint(runId, checkpointId, savedAt, at)]
      ensures var o := Apply(old(state), Op.SaveCheckpoint(runId, checkpointId, savedAt, at));
              state == o.state && (r.Success? <==> o.error == None) && (r.Failure? ==> o.error == Some(r.error))
      ensures r.Success? ==>
                && checkpointId in state.checkpoints && Records(r.value, state.checkpoints[checkpointId])
                && fresh(r.value.run) && fresh(r.value.steps) && OutsideRecord(r.value)
      ensures fresh(checkpointStore.repr - old(checkpointStore.repr))
    {
      Note(Op.SaveCheckpoint(runId, checkpointId, savedAt, at));
      assert Live(runId);
      var snapshot := GetRun(runId);
      if snapshot.Failure? {
        return Failure(snapshot.error);
      }
      var checkpoint := snapshot.value.(checkpointId := checkpointId, savedAt := savedAt);
      var copy := SaveExisting(checkpoint, Snapshot(state, runId, checkpointId, savedAt),
                               Event(runId, None, CheckpointSaved(checkpointId, savedAt), at));
      return Success(copy);
    }

    method RestoreCheckpoint(checkpointId: string) returns (r: Result<Record, Error>)
      requires Valid()
      modifies this
      ensures Valid() && fresh(repr - old(repr))
      ensures var o := Apply(old(state), Op.RestoreCheckpoint(checkpointId));
              state == o.state && (r.Success? <==> o.error == None) && (r.Failure? ==> o.error == Some(r.error))
      ensures r.Success? ==> checkpointId in state.checkpoints && fresh(r.value.run) && fresh(r.value.steps)
      ensures r.Success? ==> OutsideRecord(r.value)
      ensures r.Success? ==>
                var c := state.checkpoints[checkpointId];
                r.value.run.Value() == c.run && Hold(r.value.steps, c.steps) && r.value.events == c.events
      ensures history == old(history) + [Op.RestoreCheckpoint(checkpointId)]
    {
      Note(Op.RestoreCheckpoint(checkpointId));
      var checkpoint := checkpointStore.Get(checkpointId);
      if checkpoint.None? {
        return Failure(CheckpointNotFound);
      }
      ghost var c := checkpointStore.contents[checkpointId];
      Reinstate(checkpoint.value, c);
      assert Live(c.run.runId);
      var answer := GetRun(checkpoint.value.run.runId);
      return Success(answer.value);
    }

    /** Puts a deep copy of a checkpoint's run in place. */
    method Reinstate(r: Record, ghost c: Checkpoint)
      requires Sound() && Records(r, c)
      modifies this
      ensures Sound() && history == old(history) && fresh(repr - old(repr))
      ensures state == Written(old(state), c.run.runId, c.run, c.steps, c.events)
    {
      var copy := CloneRecord(r, c);
      ghost var owned: set<object> := {copy.run};
      owned := owned + set s | s in copy.steps;
      Install(copy.run, copy.steps, copy.events, c.run, c.steps, owned);
    }

    /** A caller changes a step object it was given: the runtime and the store do not notice. */
    method CallerChangesStep(copy: StepObject, status: StatusName, output: Value, updatedAt: int)
      requires Valid() && Outside(copy)
      modifies copy
      ensures Valid() && copy.status == status && copy.output == output && copy.updatedAt == updatedAt
    {
      copy.status := status;
      copy.output := output;
      copy.updatedAt := updatedAt;
    }

    /** The same for a run object. */
    method CallerChangesRun(copy: RunObject, status: StatusName, updatedAt: int)
      requires Valid() && Outside(copy)
      modifies copy
      ensures Valid() && copy.status == status && copy.updatedAt == updatedAt
    {
      copy.status := status;
      copy.updatedAt := updatedAt;
    }
  }

  /** A caller overwrites everything it can reach from an answer it was given. */
  method CallerChangesRecord(rt: AgentRuntime, r: Record, status: StatusName, output: Value, at: int)
    requires rt.Valid() && rt.OutsideRecord(r)
    modifies r.run, r.steps
    ensures rt.Valid()
  {
    rt.CallerChangesRun(r.run, status, at);
    for i := 0 to |r.steps|
      invariant rt.Valid() && rt.OutsideRecord(r)
    {
      rt.CallerChangesStep(r.steps[i], status, output, at);
    }
  }

  /** Restoring a checkpoint and then overwriting the answer: the store keeps the checkpoint and
      the runtime the restored run. */
  method RestoreAndChange(rt: AgentRuntime, checkpointId: string, ghost c: Checkpoint,
                          status: StatusName, output: Value, at: int)
    requires rt.Valid() && Stored(rt.state, checkpointId, c)
    modifies rt
    ensures rt.Valid() && Stored(rt.state, checkpointId, c) && rt.history == old(rt.history) + [Op.RestoreCheckpoint(checkpointId)]
    ensures fresh(rt.repr - old(rt.repr))
  {
    RestoreIs(rt.state, checkpointId);
    var answer := rt.RestoreCheckpoint(checkpointId);
    CallerChangesRecord(rt, answer.value, status, output, at);
  }

  /** Saving a run and then overwriting the answer: the store has the run as it was. */
  method SaveAndChange(rt: AgentRuntime, runId: string, checkpointId: string, savedAt: int, at: int,
                       status: StatusName, output: Value)
    requires rt.Valid() && runId in rt.state.runs && SameKeys(rt.state, runId)
    modifies rt, rt.repr, rt.checkpointStore
    ensures rt.Valid() && rt.repr == old(rt.repr)
    ensures rt.history == old(rt.history) + [Op.SaveCheckpoint(runId, checkpointId, savedAt, at)]
    ensures Stored(rt.state, checkpointId, Snapshot(old(rt.state), runId, checkpointId, savedAt))
  {
    SaveStores(rt.state, Op.SaveCheckpoint(runId, checkpointId, savedAt, at));
    var answer := rt.SaveCheckpoint(runId, checkpointId, savedAt, at);
    CallerChangesRecord(rt, answer.value, status, output, at);
  }

  /** Save a run, overwrite every object of the answer, restore, overwrite every object of that
      answer too, and restore again: the run comes back as it was when it was saved, in the
      runtime and in the answer. */
  method SavedRunSurvivesCallers(rt: AgentRuntime, runId: string, checkpointId: string, savedAt: int, at: int,
                                 status: StatusName, output: Value)
    returns (r: Result<Record, Error>)
    requires rt.Valid() && runId in rt.state.runs
    modifies rt, rt.repr, rt.checkpointStore
    ensures rt.Valid() && r.Success? && SameRun(rt.state, old(rt.state), runId)
    ensures runId in old(rt.state).steps && runId in old(rt.state).events
    ensures r.value.run.Value() == old(rt.state).runs[runId] && Hold(r.value.steps, old(rt.state).steps[runId])
    ensures r.value.events == old(rt.state).events[runId]
  {
    assert rt.Live(runId);
    ghost var c := Snapshot(rt.state, runId, checkpointId, savedAt);
    SaveAndChange(rt, runId, checkpointId, savedAt, at, status, output);
    RestoreAndChange(rt, checkpointId, c, status, output, at);
    RestoreIs(rt.state, checkpointId);
    r := rt.RestoreCheckpoint(checkpointId);
  }

  /** Whatever has been called so far, with honest payloads: replaying a run's log rebuilds what
      its run object and step objects hold. */
  lemma LogRebuildsObjects(rt: AgentRuntime, id: string)
    requires rt.Valid() && id in rt.runs
    requires GoodStore(rt.initial) && forall i :: 0 <= i < |rt.history| ==> Honest(rt.history[i])
    ensures id in rt.stepsByRun && id in rt.eventsByRun && id in rt.state.steps
    ensures Hold(rt.stepsByRun[id], rt.state.steps[id])
    ensures Agrees(rt.runs[id].Value(), rt.state.steps[id], rt.eventsByRun[id])
  {
    ReplayRebuildsState(rt.initial, rt.history);
    assert rt.Live(id) && GoodRun(rt.state, id);
  }
}
