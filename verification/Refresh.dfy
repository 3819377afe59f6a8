/** The operator shell's refresh protocol. Every stretch of code between two awaits is one step;
    replies and failures arrive in any order, for any task in flight, also long superseded ones. */
module Refresh {

  import opened Wrappers
  import opened TenantChoice

  // ------------------------------------------------------------------ the state

  /** What the committed shell shows: nothing, or one tenant's data loaded by one refresh. */
  datatype Shell = EmptyShell | Loaded(tenantId: string, generation: nat)

  datatype Detail = NoDetail | Detail(tenantId: string, generation: nat)

  /** How far a refresh has come: waiting for the principal and tenant list, for the activation
      of a new account, or for the tenant's data. */
  datatype Phase = AwaitTenants(afterActivation: bool) | AwaitActivation | AwaitData(tenantId: string)

  datatype Task =
    | RefreshTask(generation: nat, requested: Option<string>, explicitSelection: bool, phase: Phase)
    | HandlerTask(generation: nat, tenantId: string, refreshAfter: bool)

  /** What happened, in order. */
  datatype Note =
    | Started(generation: nat, soft: bool)
    | Resolved(generation: nat, tenantId: string)
    | ShellCommitted(generation: nat, tenantId: string)
    | DetailCommitted(generation: nat, tenantId: string)
    | Denied(generation: nat)

  datatype State = State(
    generation: nat,
    activeTenant: string,
    shell: Shell,
    detail: Detail,
    tasks: map<nat, Task>,
    nextTask: nat,
    log: seq<Note>,
    shellAtStart: Shell,
    detailAtStart: Detail)

  const INITIAL := State(0, "", EmptyShell, NoDetail, map[], 0, [], EmptyShell, NoDetail)

  /** Everything that can happen next; `task` names the task whose awaited call completes. */
  datatype Action =
    | BeginRefresh(hasToken: bool, soft: bool, requested: Option<string>, explicitSelection: bool)
    | TenantsArrive(task: nat, me: Me, listed: seq<Tenant>, saved: Option<string>)
    | ActivationDone(task: nat)
    | DataArrives(task: nat)
    | TaskFails(task: nat, denied: bool)
    | BeginHandler(tenantId: string, refreshAfter: bool)
    | HandlerReply(task: nat)
    | StreamEvent(tenantId: string)
    | StreamFails(tenantId: string, denied: bool)

  // -------------------------------------------------------------------- the steps

  function Spawn(s: State, task: Task): State {
    s.(tasks := s.tasks[s.nextTask := task], nextTask := s.nextTask + 1)
  }

  function Drop(s: State, task: nat): State {
    s.(tasks := s.tasks - {task})
  }

  function Log(s: State, note: Note): State {
    s.(log := s.log + [note])
  }

  /** The first stretch of `refreshShell`. */
  function Begin(s: State, soft: bool, requested: Option<string>, explicitSelection: bool): State {
    var generation := s.generation + 1;
    var shell := if soft then s.shell else EmptyShell;
    var detail := if soft then s.detail else NoDetail;
    Spawn(Log(s.(generation := generation, activeTenant := "", shell := shell, detail := detail,
                 shellAtStart := shell, detailAtStart := detail), Started(generation, soft)),
          RefreshTask(generation, requested, explicitSelection, AwaitTenants(false)))
  }

  /** `markActiveTenantDenied`. */
  function Deny(s: State): State {
    Log(s.(activeTenant := "", shell := EmptyShell, detail := NoDetail), Denied(s.generation))
  }

  function Selected(task: Task, me: Me, allowed: seq<Tenant>, saved: Option<string>): Option<Tenant>
    requires task.RefreshTask?
  {
    Resolve(allowed, me, TrimmedOrEmpty(task.requested), task.explicitSelection, TrimmedOrEmpty(saved))
  }

  /** A tenant is chosen: ask for its data, or give up if there is none. */
  function Choose(s: State, id: nat, task: Task, selected: Option<Tenant>): State
    requires task.RefreshTask?
  {
    match selected
    case None => Deny(Drop(s, id))
    case Some(tenant) =>
      Log(s.(activeTenant := tenant.tenantId, tasks := s.tasks[id := task.(phase := AwaitData(tenant.tenantId))]),
          Resolved(task.generation, tenant.tenantId))
  }

  function AllowedFrom(me: Me, listed: seq<Tenant>): seq<Tenant> {
    if listed != [] then listed else me.allowed
  }

  function Step(s: State, a: Action): State {
    match a
    case BeginRefresh(hasToken, soft, requested, explicitSelection) =>
      if hasToken then Begin(s, soft, requested, explicitSelection) else s
    case TenantsArrive(id, me, listed, saved) =>
      if id !in s.tasks || !s.tasks[id].RefreshTask? || !s.tasks[id].phase.AwaitTenants? then s
      else
        var task, allowed := s.tasks[id], AllowedFrom(me, listed);
        if task.generation != s.generation then Drop(s, id)
        else if allowed == [] && !task.explicitSelection && !task.phase.afterActivation then
          s.(tasks := s.tasks[id := task.(phase := AwaitActivation)])
        else Choose(s, id, task, Selected(task, me, allowed, saved))
    case ActivationDone(id) =>
      if id !in s.tasks || !s.tasks[id].RefreshTask? || !s.tasks[id].phase.AwaitActivation? then s
      else if s.tasks[id].generation != s.generation then Drop(s, id)
      else s.(tasks := s.tasks[id := s.tasks[id].(phase := AwaitTenants(true))])
    case DataArrives(id) =>
      if id !in s.tasks || !s.tasks[id].RefreshTask? || !s.tasks[id].phase.AwaitData? then s
      else
        var task := s.tasks[id];
        var tenantId := task.phase.tenantId;
        if task.generation != s.generation || s.activeTenant != tenantId then Drop(s, id)
        else Log(Drop(s, id).(shell := Loaded(tenantId, task.generation)), ShellCommitted(task.generation, tenantId))
    case TaskFails(id, denied) =>
      if id !in s.tasks then s
      else
        var task := s.tasks[id];
        var current := task.generation == s.generation && (task.HandlerTask? ==> s.activeTenant == task.tenantId);
        if current && denied then Deny(Drop(s, id)) else Drop(s, id)
    case BeginHandler(tenantId, refreshAfter) =>
      if tenantId == "" then s else Spawn(s, HandlerTask(s.generation, tenantId, refreshAfter))
    case HandlerReply(id) =>
      if id !in s.tasks || !s.tasks[id].HandlerTask? then s
      else
        var task := s.tasks[id];
        if task.generation != s.generation || s.activeTenant != task.tenantId then Drop(s, id)
        else
          var done := Log(Drop(s, id).(detail := Detail(task.tenantId, task.generation)),
                          DetailCommitted(task.generation, task.tenantId));
          if task.refreshAfter then Begin(done, true, Some(task.tenantId), false) else done
    case StreamEvent(tenantId) =>
      if tenantId == "" || s.activeTenant != tenantId then s else Begin(s, true, Some(tenantId), false)
    case StreamFails(tenantId, denied) =>
      if tenantId == "" || s.activeTenant != tenantId || !denied then s else Deny(s)
  }

  function Run(actions: seq<Action>): State {
    if actions == [] then INITIAL else Step(Run(actions[..|actions| - 1]), actions[|actions| - 1])
  }

  // -------------------------------------------------------------- reading the log

  /** How many refreshes have been started. */
  function Starts(log: seq<Note>): nat {
    if log == [] then 0 else Starts(log[..|log| - 1]) + (if log[|log| - 1].Started? then 1 else 0)
  }

  /** The notes since the newest refresh was started. */
  function Since(log: seq<Note>): seq<Note> {
    if log == [] || log[|log| - 1].Started? then []
    else Since(log[..|log| - 1]) + [log[|log| - 1]]
  }

  /** Whether the newest refresh keeps what is on display while it runs. */
  predicate NewestIsSoft(log: seq<Note>) {
    log != [] &&
    (if log[|log| - 1].Started? then log[|log| - 1].soft else NewestIsSoft(log[..|log| - 1]))
  }

  predicate HasResolved(notes: seq<Note>) {
    exists i :: 0 <= i < |notes| && notes[i].Resolved?
  }

  predicate HasDenied(notes: seq<Note>) {
    exists i :: 0 <= i < |notes| && notes[i].Denied?
  }

  predicate HasShellCommit(notes: seq<Note>) {
    exists i :: 0 <= i < |notes| && notes[i].ShellCommitted?
  }

  predicate HasDetailCommit(notes: seq<Note>) {
    exists i :: 0 <= i < |notes| && notes[i].DetailCommitted?
  }

  /** What may happen after `past`. */
  predicate Proper(past: seq<Note>, note: Note) {
    var since := Since(past);
    match note
    case Started(generation, _) => generation == Starts(past) + 1
    case Resolved(generation, _) => generation == Starts(past) && !HasResolved(since) && !HasDenied(since)
    case ShellCommitted(generation, tenantId) =>
      generation == Starts(past) && Resolved(generation, tenantId) in since && !HasDenied(since) && !HasShellCommit(since)
    case DetailCommitted(generation, tenantId) =>
      generation == Starts(past) && Resolved(generation, tenantId) in since && !HasDenied(since)
    case Denied(generation) => generation == Starts(past)
  }

  predicate Lawful(log: seq<Note>) {
    log == [] || (Lawful(log[..|log| - 1]) && Proper(log[..|log| - 1], log[|log| - 1]))
  }

  // ---------------------------------------------------------------- the invariant

  /** A refresh of the current generation that has not chosen a tenant yet. */
  predicate Undecided(s: State, task: Task) {
    task.RefreshTask? && task.generation == s.generation && !task.phase.AwaitData?
  }

  /** A refresh of the current generation that waits for its tenant's data. */
  predicate Waiting(s: State, task: Task) {
    task.RefreshTask? && task.generation == s.generation && task.phase.AwaitData?
  }

  /** No task is ahead of the generation; a waiting refresh of this generation waits for the
      tenant that was resolved. */
  predicate TaskInv(s: State, id: nat) {
    id in s.tasks ==>
      var task := s.tasks[id];
      && id < s.nextTask && task.generation <= s.generation
      && (Undecided(s, task) ==> !HasResolved(Since(s.log)) && !HasDenied(Since(s.log)))
      && (task.RefreshTask? && task.generation == s.generation ==> !HasShellCommit(Since(s.log)))
      && (Waiting(s, task) ==> Resolved(s.generation, task.phase.tenantId) in Since(s.log))
      && (Waiting(s, task) && HasDenied(Since(s.log)) ==> task.phase.tenantId != "")
      && (task.HandlerTask? ==> task.tenantId != "")
  }

  /** One generation, one refresh. */
  predicate OneRefresh(s: State, i: nat, j: nat) {
    (&& i in s.tasks && j in s.tasks && s.tasks[i].RefreshTask? && s.tasks[j].RefreshTask?
     && s.tasks[i].generation == s.tasks[j].generation)
    ==> i == j
  }

  ghost predicate TasksInv(s: State) {
    && (forall id {:trigger TaskInv(s, id)} :: TaskInv(s, id))
    && (forall i, j {:trigger OneRefresh(s, i, j)} :: OneRefresh(s, i, j))
  }

  /** The references agree with the log. */
  predicate RefsInv(s: State) {
    && s.generation == Starts(s.log)
    && (s.activeTenant != "" ==> Resolved(s.generation, s.activeTenant) in Since(s.log))
    && (HasDenied(Since(s.log)) ==> s.activeTenant == "")
    && (HasResolved(Since(s.log)) && !HasDenied(Since(s.log)) ==> Resolved(s.generation, s.activeTenant) in Since(s.log))
  }

  /** A denial clears the display; before one, each view is what its last commit of this
      generation put there, for the tenant it resolved, and without a commit what was there when
      the newest refresh began. */
  predicate DisplayInv(s: State) {
    var since := Since(s.log);
    && (!NewestIsSoft(s.log) ==> s.shellAtStart == EmptyShell && s.detailAtStart == NoDetail)
    && (HasDenied(since) ==> s.shell == EmptyShell && s.detail == NoDetail)
    && (!HasDenied(since) ==>
          && (if HasShellCommit(since) then ShownFor(s, s.shell) else s.shell == s.shellAtStart)
          && (if HasDetailCommit(since) then DetailFor(s, s.detail) else s.detail == s.detailAtStart))
  }

  predicate ShownFor(s: State, shell: Shell) {
    shell.Loaded? && shell.generation == s.generation && Resolved(s.generation, shell.tenantId) in Since(s.log)
  }

  predicate DetailFor(s: State, detail: Detail) {
    detail.Detail? && detail.generation == s.generation && Resolved(s.generation, detail.tenantId) in Since(s.log)
  }

  ghost predicate Inv(s: State) {
    TasksInv(s) && RefsInv(s) && DisplayInv(s) && Lawful(s.log)
  }

  lemma LogNote(log: seq<Note>, note: Note)
    ensures Starts(log + [note]) == Starts(log) + if note.Started? then 1 else 0
    ensures Since(log + [note]) == if note.Started? then [] else Since(log) + [note]
    ensures NewestIsSoft(log + [note]) == if note.Started? then note.soft else NewestIsSoft(log)
    ensures Lawful(log) && Proper(log, note) ==> Lawful(log + [note])
  {
    assert (log + [note])[..|log|] == log;
  }

  lemma HasMore(notes: seq<Note>, note: Note)
    ensures HasResolved(notes + [note]) <==> HasResolved(notes) || note.Resolved?
    ensures HasDenied(notes + [note]) <==> HasDenied(notes) || note.Denied?
    ensures HasShellCommit(notes + [note]) <==> HasShellCommit(notes) || note.ShellCommitted?
    ensures HasDetailCommit(notes + [note]) <==> HasDetailCommit(notes) || note.DetailCommitted?
  {
    var all := notes + [note];
    assert forall i :: 0 <= i < |notes| ==> all[i] == notes[i];
    assert all[|notes|] == note;
  }

  lemma BeginKeepsInv(s: State, soft: bool, requested: Option<string>, explicitSelection: bool)
    requires Inv(s)
    ensures Inv(Begin(s, soft, requested, explicitSelection))
  {
    var after := Begin(s, soft, requested, explicitSelection);
    LogNote(s.log, Started(s.generation + 1, soft));
    forall id ensures TaskInv(after, id) {
      assert TaskInv(s, id);
    }
    forall i, j ensures OneRefresh(after, i, j) {
      assert OneRefresh(s, i, j) && TaskInv(s, i) && TaskInv(s, j);
    }
  }

  lemma DropKeepsInv(s: State, id: nat)
    requires Inv(s)
    ensures Inv(Drop(s, id))
  {
    var after := Drop(s, id);
    forall k ensures TaskInv(after, k) {
      assert TaskInv(s, k);
    }
    forall i, j ensures OneRefresh(after, i, j) {
      assert OneRefresh(s, i, j);
    }
  }

  /** Denying is in order once no refresh of this generation is still undecided, and the one that
      waits, if any, waits for a tenant with a name. */
  predicate Deniable(s: State) {
    forall id :: id in s.tasks ==>
      !Undecided(s, s.tasks[id]) && (Waiting(s, s.tasks[id]) ==> s.tasks[id].phase.tenantId != "")
  }

  lemma DenyKeepsInv(s: State)
    requires Inv(s) && Deniable(s)
    ensures Inv(Deny(s))
  {
    var after, since := Deny(s), Since(s.log);
    LogNote(s.log, Denied(s.generation));
    HasMore(since, Denied(s.generation));
    forall id ensures TaskInv(after, id) {
      assert TaskInv(s, id);
    }
    forall i, j ensures OneRefresh(after, i, j) {
      assert OneRefresh(s, i, j);
    }
  }

  lemma ActiveIsDeniable(s: State)
    requires Inv(s) && s.activeTenant != ""
    ensures Deniable(s)
  {
    var since, note := Since(s.log), Resolved(s.generation, s.activeTenant);
    assert note in since;
    assert HasResolved(since);
    forall id | id in s.tasks
      ensures !Undecided(s, s.tasks[id]) && (Waiting(s, s.tasks[id]) ==> s.tasks[id].phase.tenantId != "")
    {
      assert TaskInv(s, id);
      if Waiting(s, s.tasks[id]) {
        OneResolution(s.log, note, Resolved(s.generation, s.tasks[id].phase.tenantId));
      }
    }
  }

  /** Once a current refresh is gone, no other refresh of its generation is left. */
  lemma LastOfGeneration(s: State, id: nat)
    requires Inv(s) && id in s.tasks && s.tasks[id].RefreshTask? && s.tasks[id].generation == s.generation
    ensures forall k :: k in Drop(s, id).tasks ==> !(s.tasks[k].RefreshTask? && s.tasks[k].generation == s.generation)
  {
    forall k | k in Drop(s, id).tasks ensures !(s.tasks[k].RefreshTask? && s.tasks[k].generation == s.generation) {
      assert OneRefresh(s, id, k);
    }
  }

  lemma RephaseKeepsInv(s: State, id: nat, phase: Phase)
    requires Inv(s) && id in s.tasks && Undecided(s, s.tasks[id]) && !phase.AwaitData?
    ensures Inv(s.(tasks := s.tasks[id := s.tasks[id].(phase := phase)]))
  {
    var after := s.(tasks := s.tasks[id := s.tasks[id].(phase := phase)]);
    forall k ensures TaskInv(after, k) {
      assert TaskInv(s, k) && TaskInv(s, id);
    }
    forall i, j ensures OneRefresh(after, i, j) {
      assert OneRefresh(s, i, j);
    }
  }

  function ResolvedAs(s: State, id: nat, tenantId: string): State
    requires id in s.tasks && s.tasks[id].RefreshTask?
  {
    Log(s.(activeTenant := tenantId, tasks := s.tasks[id := s.tasks[id].(phase := AwaitData(tenantId))]),
        Resolved(s.generation, tenantId))
  }

  lemma ResolvedKeepsTask(s: State, id: nat, tenantId: string, k: nat)
    requires id in s.tasks && Undecided(s, s.tasks[id]) && TaskInv(s, id) && TaskInv(s, k) && OneRefresh(s, id, k)
    ensures TaskInv(ResolvedAs(s, id, tenantId), k)
  {
    LogNote(s.log, Resolved(s.generation, tenantId));
    HasMore(Since(s.log), Resolved(s.generation, tenantId));
  }

  lemma ResolvedKeepsOne(s: State, id: nat, tenantId: string, i: nat, j: nat)
    requires id in s.tasks && s.tasks[id].RefreshTask? && OneRefresh(s, i, j)
    ensures OneRefresh(ResolvedAs(s, id, tenantId), i, j)
  {
  }

  lemma ResolvedKeepsDisplay(s: State, id: nat, tenantId: string)
    requires Inv(s) && id in s.tasks && Undecided(s, s.tasks[id])
    ensures DisplayInv(ResolvedAs(s, id, tenantId)) && RefsInv(ResolvedAs(s, id, tenantId))
    ensures Lawful(ResolvedAs(s, id, tenantId).log)
  {
    assert TaskInv(s, id);
    LogNote(s.log, Resolved(s.generation, tenantId));
    HasMore(Since(s.log), Resolved(s.generation, tenantId));
  }

  lemma ResolvedKeepsInv(s: State, id: nat, tenantId: string)
    requires Inv(s) && id in s.tasks && Undecided(s, s.tasks[id])
    ensures Inv(ResolvedAs(s, id, tenantId))
  {
    var after := ResolvedAs(s, id, tenantId);
    ResolvedKeepsDisplay(s, id, tenantId);
    forall k ensures TaskInv(after, k) {
      assert TaskInv(s, id) && TaskInv(s, k) && OneRefresh(s, id, k);
      ResolvedKeepsTask(s, id, tenantId, k);
    }
    forall i, j ensures OneRefresh(after, i, j) {
      assert OneRefresh(s, i, j);
      ResolvedKeepsOne(s, id, tenantId, i, j);
    }
  }

  lemma ChooseKeepsInv(s: State, id: nat, selected: Option<Tenant>)
    requires Inv(s) && id in s.tasks && Undecided(s, s.tasks[id])
    ensures Inv(Choose(s, id, s.tasks[id], selected))
  {
    if selected.Some? {
      ResolvedKeepsInv(s, id, selected.value.tenantId);
    } else {
      DropKeepsInv(s, id);
      LastOfGeneration(s, id);
      DenyKeepsInv(Drop(s, id));
    }
  }

  lemma CommitShellKeepsInv(s: State, id: nat)
    requires Inv(s) && id in s.tasks && s.tasks[id].RefreshTask? && s.tasks[id].phase.AwaitData?
    requires s.tasks[id].generation == s.generation && s.activeTenant == s.tasks[id].phase.tenantId
    ensures Inv(Log(Drop(s, id).(shell := Loaded(s.activeTenant, s.generation)), ShellCommitted(s.generation, s.activeTenant)))
  {
    var note, since := ShellCommitted(s.generation, s.activeTenant), Since(s.log);
    var after := Log(Drop(s, id).(shell := Loaded(s.activeTenant, s.generation)), note);
    assert TaskInv(s, id);
    LogNote(s.log, note);
    HasMore(since, note);
    forall k ensures TaskInv(after, k) {
      assert TaskInv(s, k) && OneRefresh(s, id, k);
    }
    forall i, j ensures OneRefresh(after, i, j) {
      assert OneRefresh(s, i, j);
    }
  }

  lemma CommitDetailKeepsInv(s: State, id: nat)
    requires Inv(s) && s.activeTenant != ""
    ensures Inv(Log(Drop(s, id).(detail := Detail(s.activeTenant, s.generation)), DetailCommitted(s.generation, s.activeTenant)))
  {
    var note, since := DetailCommitted(s.generation, s.activeTenant), Since(s.log);
    var after := Log(Drop(s, id).(detail := Detail(s.activeTenant, s.generation)), note);
    LogNote(s.log, note);
    HasMore(since, note);
    forall k ensures TaskInv(after, k) {
      assert TaskInv(s, k);
    }
    forall i, j ensures OneRefresh(after, i, j) {
      assert OneRefresh(s, i, j);
    }
  }

  lemma SpawnHandlerKeepsInv(s: State, tenantId: string, refreshAfter: bool)
    requires Inv(s) && tenantId != ""
    ensures Inv(Spawn(s, HandlerTask(s.generation, tenantId, refreshAfter)))
  {
    var after := Spawn(s, HandlerTask(s.generation, tenantId, refreshAfter));
    forall k ensures TaskInv(after, k) {
      assert TaskInv(s, k);
    }
    forall i, j ensures OneRefresh(after, i, j) {
      assert OneRefresh(s, i, j);
    }
  }

  lemma FailureKeepsInv(s: State, id: nat, denied: bool)
    requires Inv(s) && id in s.tasks
    ensures Inv(Step(s, TaskFails(id, denied)))
  {
    var task := s.tasks[id];
    DropKeepsInv(s, id);
    if task.generation == s.generation && denied {
      if task.RefreshTask? {
        LastOfGeneration(s, id);
        DenyKeepsInv(Drop(s, id));
      } else if s.activeTenant == task.tenantId {
        assert TaskInv(s, id);
        ActiveIsDeniable(Drop(s, id));
        DenyKeepsInv(Drop(s, id));
      }
    }
  }

  lemma StepKeepsInv(s: State, a: Action)
    requires Inv(s)
    ensures Inv(Step(s, a))
  {
    match a
    case BeginRefresh(_, soft, requested, explicitSelection) => BeginKeepsInv(s, soft, requested, explicitSelection);
    case TenantsArrive(id, me, listed, saved) =>
      if id in s.tasks {
        DropKeepsInv(s, id);
        if Undecided(s, s.tasks[id]) {
          RephaseKeepsInv(s, id, AwaitActivation);
          ChooseKeepsInv(s, id, Selected(s.tasks[id], me, AllowedFrom(me, listed), saved));
        }
      }
    case ActivationDone(id) =>
      if id in s.tasks {
        DropKeepsInv(s, id);
        if Undecided(s, s.tasks[id]) {
          RephaseKeepsInv(s, id, AwaitTenants(true));
        }
      }
    case DataArrives(id) => DataKeepsInv(s, id);
    case TaskFails(id, denied) => if id in s.tasks { FailureKeepsInv(s, id, denied); }
    case BeginHandler(tenantId, refreshAfter) => if tenantId != "" { SpawnHandlerKeepsInv(s, tenantId, refreshAfter); }
    case HandlerReply(id) => HandlerReplyKeepsInv(s, id);
    case StreamEvent(tenantId) => BeginKeepsInv(s, true, Some(tenantId), false);
    case StreamFails(tenantId, _) =>
      if s.activeTenant != "" {
        ActiveIsDeniable(s);
        DenyKeepsInv(s);
      }
  }

  lemma DataKeepsInv(s: State, id: nat)
    requires Inv(s)
    ensures Inv(Step(s, DataArrives(id)))
  {
    DropKeepsInv(s, id);
    if id in s.tasks && s.tasks[id].RefreshTask? && s.tasks[id].phase.AwaitData? && s.tasks[id].generation == s.generation {
      if s.activeTenant == s.tasks[id].phase.tenantId {
        assert TaskInv(s, id);
        CommitShellKeepsInv(s, id);
      }
    }
  }

  lemma HandlerReplyKeepsInv(s: State, id: nat)
    requires Inv(s)
    ensures Inv(Step(s, HandlerReply(id)))
  {
    DropKeepsInv(s, id);
    if id in s.tasks && s.tasks[id].HandlerTask? && s.tasks[id].generation == s.generation {
      var task := s.tasks[id];
      if s.activeTenant == task.tenantId {
        assert TaskInv(s, id);
        CommitDetailKeepsInv(s, id);
        BeginKeepsInv(Log(Drop(s, id).(detail := Detail(task.tenantId, task.generation)),
                          DetailCommitted(task.generation, task.tenantId)), true, Some(task.tenantId), false);
      }
    }
  }

  lemma {:induction false} EveryRunKeepsInv(actions: seq<Action>)
    ensures Inv(Run(actions))
  {
    if actions != [] {
      EveryRunKeepsInv(actions[..|actions| - 1]);
      StepKeepsInv(Run(actions[..|actions| - 1]), actions[|actions| - 1]);
    }
  }

  // ------------------------------------------------------------------- the theorems

  lemma {:induction false} LawfulAt(log: seq<Note>, i: nat)
    requires Lawful(log) && i < |log|
    ensures Proper(log[..i], log[i]) && Lawful(log[..i])
  {
    var n := |log| - 1;
    if i < n {
      LawfulAt(log[..n], i);
      assert log[..n][..i] == log[..i];
    }
  }

  /** A note still counts, or a refresh has been started after it. */
  lemma {:induction false} CountsOrSuperseded(log: seq<Note>, i: nat)
    requires i < |log| && !log[i].Started?
    ensures log[i] in Since(log) || Starts(log[..i]) < Starts(log)
    ensures Starts(log[..i]) <= Starts(log)
  {
    var n := |log| - 1;
    if i < n {
      CountsOrSuperseded(log[..n], i);
      assert log[..n][..i] == log[..i];
    }
  }

  lemma {:induction false} StartedSince(log: seq<Note>, i: nat) returns (k: nat)
    requires i < |log| && Starts(log[..i]) < Starts(log)
    ensures i <= k < |log| && log[k].Started?
  {
    var n := |log| - 1;
    if log[n].Started? {
      k := n;
    } else {
      assert log[..n][..i] == log[..i];
      k := StartedSince(log[..n], i);
    }
  }

  predicate IsCommit(note: Note) {
    note.ShellCommitted? || note.DetailCommitted?
  }

  /** Where a note that still counts is: no refresh was started after it. */
  lemma {:induction false} WhereItCounts(log: seq<Note>, note: Note) returns (i: nat)
    requires note in Since(log)
    ensures i < |log| && log[i] == note
    ensures forall k :: i <= k < |log| ==> !log[k].Started?
  {
    var n := |log| - 1;
    if log[n] == note {
      i := n;
    } else {
      i := WhereItCounts(log[..n], note);
    }
  }

  lemma LawfulCommit(log: seq<Note>, j: nat) returns (i: nat)
    requires Lawful(log) && j < |log| && IsCommit(log[j])
    ensures log[j].generation == Starts(log[..j])
    ensures i < j && log[i] == Resolved(log[j].generation, log[j].tenantId)
    ensures forall k :: i < k < j ==> !log[k].Started?
  {
    LawfulAt(log, j);
    i := WhereItCounts(log[..j], Resolved(log[j].generation, log[j].tenantId));
  }

  lemma LawfulShellCommits(log: seq<Note>, i: nat, j: nat)
    requires Lawful(log) && i < j < |log| && log[i].ShellCommitted? && log[j].ShellCommitted?
    ensures log[i].generation < log[j].generation
  {
    LawfulAt(log, i);
    LawfulAt(log, j);
    var past := log[..j];
    CountsOrSuperseded(past, i);
    assert past[..i] == log[..i] && past[i] == log[i];
  }

  lemma LawfulAfterDenial(log: seq<Note>, i: nat, j: nat) returns (k: nat)
    requires Lawful(log) && i < j < |log| && log[i].Denied? && IsCommit(log[j])
    ensures i < k < j && log[k].Started?
  {
    LawfulAt(log, j);
    var past := log[..j];
    CountsOrSuperseded(past, i);
    assert past[..i] == log[..i] && past[i] == log[i];
    k := StartedSince(past, i);
  }

  /** Only the newest refresh commits, for the tenant it resolved: a commit carries the number of
      the refreshes started so far, and follows that tenant's resolution with no start between. */
  lemma CommitsBelongToNewestRefresh(actions: seq<Action>, j: nat) returns (i: nat)
    requires j < |Run(actions).log| && IsCommit(Run(actions).log[j])
    ensures var log := Run(actions).log;
            && log[j].generation == Starts(log[..j])
            && i < j && log[i] == Resolved(log[j].generation, log[j].tenantId)
            && forall k :: i < k < j ==> !log[k].Started?
  {
    EveryRunKeepsInv(actions);
    i := LawfulCommit(Run(actions).log, j);
  }

  /** Full-shell commits have strictly increasing generations. */
  lemma ShellCommitsIncrease(actions: seq<Action>, i: nat, j: nat)
    requires i < j < |Run(actions).log| && Run(actions).log[i].ShellCommitted? && Run(actions).log[j].ShellCommitted?
    ensures Run(actions).log[i].generation < Run(actions).log[j].generation
  {
    EveryRunKeepsInv(actions);
    LawfulShellCommits(Run(actions).log, i, j);
  }

  /** After a denial nothing guarded commits until a new refresh starts. */
  lemma NoCommitAfterDenial(actions: seq<Action>, i: nat, j: nat) returns (k: nat)
    requires i < j < |Run(actions).log| && Run(actions).log[i].Denied? && IsCommit(Run(actions).log[j])
    ensures i < k < j && Run(actions).log[k].Started?
  {
    EveryRunKeepsInv(actions);
    k := LawfulAfterDenial(Run(actions).log, i, j);
  }

  lemma {:induction false} OneResolution(log: seq<Note>, a: Note, b: Note)
    requires Lawful(log) && a in Since(log) && b in Since(log) && a.Resolved? && b.Resolved?
    ensures a == b
  {
    var n := |log| - 1;
    if a != log[n] && b != log[n] {
      OneResolution(log[..n], a, b);
    }
  }

  /** Once the newest refresh has resolved a tenant, shell and detail are empty or belong to that
      tenant and generation; a soft refresh may besides still show what was there when it began. */
  lemma DisplayBelongsToTenant(actions: seq<Action>, tenantId: string)
    requires Resolved(Run(actions).generation, tenantId) in Since(Run(actions).log)
    ensures var s := Run(actions);
            && (s.shell == EmptyShell || s.shell == Loaded(tenantId, s.generation)
                || (NewestIsSoft(s.log) && s.shell == s.shellAtStart))
            && (s.detail == NoDetail || s.detail == Detail(tenantId, s.generation)
                || (NewestIsSoft(s.log) && s.detail == s.detailAtStart))
            && (s.activeTenant == "" || s.activeTenant == tenantId)
  {
    EveryRunKeepsInv(actions);
    var s := Run(actions);
    var note := Resolved(s.generation, tenantId);
    if s.shell.Loaded? && Resolved(s.generation, s.shell.tenantId) in Since(s.log) {
      OneResolution(s.log, note, Resolved(s.generation, s.shell.tenantId));
    }
    if s.detail.Detail? && Resolved(s.generation, s.detail.tenantId) in Since(s.log) {
      OneResolution(s.log, note, Resolved(s.generation, s.detail.tenantId));
    }
    if s.activeTenant != "" {
      OneResolution(s.log, note, Resolved(s.generation, s.activeTenant));
    }
  }

  // ---------------------------------------------------- current work takes effect

  /** The active tenant, told by the log: the one the newest refresh resolved, until a denial. */
  predicate ActiveByLog(log: seq<Note>, tenantId: string) {
    Resolved(Starts(log), tenantId) in Since(log) && !HasDenied(Since(log))
  }

  lemma ActiveTenantIff(actions: seq<Action>, tenantId: string)
    requires tenantId != ""
    ensures Run(actions).activeTenant == tenantId <==> ActiveByLog(Run(actions).log, tenantId)
  {
    EveryRunKeepsInv(actions);
    ActiveIff(Run(actions), tenantId);
  }

  lemma ActiveIff(s: State, tenantId: string)
    requires Inv(s)
    ensures ActiveByLog(s.log, tenantId) ==> s.activeTenant == tenantId
    ensures tenantId != "" && s.activeTenant == tenantId ==> ActiveByLog(s.log, tenantId)
  {
    if ActiveByLog(s.log, tenantId) {
      assert HasResolved(Since(s.log));
      OneResolution(s.log, Resolved(s.generation, tenantId), Resolved(s.generation, s.activeTenant));
    }
  }

  /** The task belongs to the newest refresh: it carries the number of refreshes started. */
  predicate NewestRefresh(s: State, id: nat) {
    id in s.tasks && s.tasks[id].RefreshTask? && s.tasks[id].generation == Starts(s.log)
  }

  /** The task is a handler's, begun under the newest refresh for the tenant that is active. */
  predicate CurrentHandler(s: State, id: nat) {
    && id in s.tasks && s.tasks[id].HandlerTask? && s.tasks[id].generation == Starts(s.log)
    && ActiveByLog(s.log, s.tasks[id].tenantId)
  }

  /** A denial of access that concerns current work: of a request of the newest refresh or of a
      current handler, or on the active tenant's event stream; or the newest refresh learns that
      there is no tenant to choose. */
  predicate Denies(s: State, a: Action) {
    match a
    case TaskFails(id, denied) => denied && (NewestRefresh(s, id) || CurrentHandler(s, id))
    case StreamFails(tenantId, denied) => denied && tenantId != "" && ActiveByLog(s.log, tenantId)
    case TenantsArrive(id, me, listed, saved) =>
      && NewestRefresh(s, id) && s.tasks[id].phase.AwaitTenants?
      && var allowed := AllowedFrom(me, listed);
         Chooses(allowed, Criteria(me, TrimmedOrEmpty(s.tasks[id].requested), s.tasks[id].explicitSelection, TrimmedOrEmpty(saved)), None)
         && (allowed == [] ==> s.tasks[id].explicitSelection || s.tasks[id].phase.afterActivation)
    case _ => false
  }

  predicate Cleared(s: State) {
    s.activeTenant == "" && s.shell == EmptyShell && s.detail == NoDetail
  }

  lemma NothingChosen(allowed: seq<Tenant>, me: Me, asked: string, explicitSelection: bool, kept: string)
    requires Chooses(allowed, Criteria(me, asked, explicitSelection, kept), None)
    ensures Resolve(allowed, me, asked, explicitSelection, kept) == None
  {
    ResolveChooses(allowed, me, asked, explicitSelection, kept);
    NoneIsOnlyChoice(allowed, Criteria(me, asked, explicitSelection, kept), Resolve(allowed, me, asked, explicitSelection, kept));
  }

  lemma {:induction false} NoneIsOnlyChoice(allowed: seq<Tenant>, criteria: seq<Criterion>, r: Option<Tenant>)
    requires Chooses(allowed, criteria, None) && Chooses(allowed, criteria, r)
    ensures r == None
  {
    if criteria != [] {
      NoneIsOnlyChoice(allowed, criteria[1..], r);
    }
  }

  lemma DenialIsNoted(s: State, a: Action)
    requires Inv(s) && Denies(s, a)
    ensures Step(s, a).log == s.log + [Denied(s.generation)] && Step(s, a).generation == s.generation
  {
    match a
    case TaskFails(id, _) =>
      if s.tasks[id].HandlerTask? {
        ActiveIff(s, s.tasks[id].tenantId);
      }
    case StreamFails(tenantId, _) => ActiveIff(s, tenantId);
    case TenantsArrive(id, me, listed, saved) =>
      NothingChosen(AllowedFrom(me, listed), me, TrimmedOrEmpty(s.tasks[id].requested), s.tasks[id].explicitSelection,
                    TrimmedOrEmpty(saved));
  }

  /** A step that starts no refresh only adds to the notes since the newest start. */
  lemma StepExtends(s: State, a: Action)
    ensures Step(s, a).generation == s.generation || Step(s, a).generation == s.generation + 1
    ensures Step(s, a).generation == s.generation && HasDenied(Since(s.log)) ==> HasDenied(Since(Step(s, a).log))
  {
    var after := Step(s, a);
    if after.generation == s.generation && after.log != s.log {
      var note := after.log[|after.log| - 1];
      assert after.log == s.log + [note];
      LogNote(s.log, note);
      HasMore(Since(s.log), note);
    }
  }

  lemma {:induction false} DenialLasts(actions: seq<Action>, more: seq<Action>)
    requires HasDenied(Since(Run(actions).log))
    ensures Run(actions + more).generation >= Run(actions).generation
    ensures Run(actions + more).generation == Run(actions).generation ==> HasDenied(Since(Run(actions + more).log))
    decreases |more|
  {
    if more == [] {
      assert actions + more == actions;
    } else {
      var init, last := more[..|more| - 1], more[|more| - 1];
      DenialLasts(actions, init);
      assert actions + more == actions + init + [last];
      RunSnoc(actions + init, last);
      StepExtends(Run(actions + init), last);
    }
  }

  /** A denial that concerns current work clears the active tenant and the display, and they stay
      clear over every continuation that starts no refresh. */
  lemma DenialClears(actions: seq<Action>, a: Action, more: seq<Action>)
    requires Denies(Run(actions), a)
    requires Run(actions + [a] + more).generation == Run(actions).generation
    ensures Cleared(Run(actions + [a] + more))
  {
    EveryRunKeepsInv(actions);
    var s := Run(actions);
    DenialIsNoted(s, a);
    RunSnoc(actions, a);
    LogNote(s.log, Denied(s.generation));
    HasMore(Since(s.log), Denied(s.generation));
    DenialLasts(actions + [a], more);
    EveryRunKeepsInv(actions + [a] + more);
  }

  /** In particular at once. */
  lemma DeniedAtOnce(actions: seq<Action>, a: Action)
    requires Denies(Run(actions), a)
    ensures Cleared(Run(actions + [a]))
  {
    EveryRunKeepsInv(actions);
    DenialIsNoted(Run(actions), a);
    RunSnoc(actions, a);
    assert actions + [a] + [] == actions + [a];
    DenialClears(actions, a, []);
  }

  /** Only the task that got its reply is gone. */
  predicate OnlySettles(s: State, id: nat, after: State) {
    after == s.(tasks := s.tasks - {id})
  }

  /** The newest refresh's data is committed unless access was denied meanwhile; any other
      refresh's data changes nothing on display. */
  lemma DataIsCommittedIffCurrent(actions: seq<Action>, id: nat)
    requires id in Run(actions).tasks && Run(actions).tasks[id].RefreshTask? && Run(actions).tasks[id].phase.AwaitData?
    ensures var s, after := Run(actions), Run(actions + [DataArrives(id)]);
            var tenantId := s.tasks[id].phase.tenantId;
            if NewestRefresh(s, id) && !HasDenied(Since(s.log)) then
              && after.shell == Loaded(tenantId, Starts(s.log)) && after.detail == s.detail
              && after.log == s.log + [ShellCommitted(Starts(s.log), tenantId)]
              && after.activeTenant == s.activeTenant == tenantId && after.tasks == s.tasks - {id}
            else OnlySettles(s, id, after)
  {
    EveryRunKeepsInv(actions);
    RunSnoc(actions, DataArrives(id));
    var s := Run(actions);
    assert TaskInv(s, id);
    if NewestRefresh(s, id) && !HasDenied(Since(s.log)) {
      ActiveIff(s, s.tasks[id].phase.tenantId);
    }
  }

  /** A current handler's reply is committed, and starts the handler's soft refresh of its tenant
      if it has one; any other handler's reply changes nothing on display. */
  lemma ReplyIsCommittedIffCurrent(actions: seq<Action>, id: nat)
    requires id in Run(actions).tasks && Run(actions).tasks[id].HandlerTask?
    ensures var s, after := Run(actions), Run(actions + [HandlerReply(id)]);
            var tenantId := s.tasks[id].tenantId;
            if CurrentHandler(s, id) then
              var done := s.(tasks := s.tasks - {id}, detail := Detail(tenantId, Starts(s.log)),
                             log := s.log + [DetailCommitted(Starts(s.log), tenantId)]);
              s.activeTenant == tenantId
              && if s.tasks[id].refreshAfter then StartsRefresh(done, true, Some(tenantId), false, after) && done.log <= after.log
                 else after == done
            else OnlySettles(s, id, after)
  {
    EveryRunKeepsInv(actions);
    RunSnoc(actions, HandlerReply(id));
    var s := Run(actions);
    var tenantId := s.tasks[id].tenantId;
    CurrentReply(s, id);
    BeginStarts(s.(tasks := s.tasks - {id}, detail := Detail(tenantId, s.generation),
                   log := s.log + [DetailCommitted(s.generation, tenantId)]), true, Some(tenantId), false);
  }

  lemma CurrentReply(s: State, id: nat)
    requires Inv(s) && id in s.tasks && s.tasks[id].HandlerTask?
    ensures var task := s.tasks[id];
            Step(s, HandlerReply(id)) ==
              if !CurrentHandler(s, id) then s.(tasks := s.tasks - {id})
              else
                var done := s.(tasks := s.tasks - {id}, detail := Detail(task.tenantId, s.generation),
                               log := s.log + [DetailCommitted(s.generation, task.tenantId)]);
                if task.refreshAfter then Begin(done, true, Some(task.tenantId), false) else done
    ensures CurrentHandler(s, id) ==> s.activeTenant == s.tasks[id].tenantId
  {
    assert TaskInv(s, id);
    ActiveIff(s, s.tasks[id].tenantId);
  }

  /** A failure that is not a denial, or not of current work, changes nothing on display. */
  lemma OtherFailuresOnlySettle(actions: seq<Action>, id: nat, denied: bool)
    requires id in Run(actions).tasks && !Denies(Run(actions), TaskFails(id, denied))
    ensures OnlySettles(Run(actions), id, Run(actions + [TaskFails(id, denied)]))
  {
    EveryRunKeepsInv(actions);
    RunSnoc(actions, TaskFails(id, denied));
    var s := Run(actions);
    assert TaskInv(s, id);
    if s.tasks[id].HandlerTask? {
      ActiveIff(s, s.tasks[id].tenantId);
    }
  }

  /** The tenant is active, and the refresh waits for its data; the display is as it was. */
  predicate Activates(s: State, id: nat, tenant: Tenant, after: State)
    requires id in s.tasks && s.tasks[id].RefreshTask?
  {
    after == s.(activeTenant := tenant.tenantId, log := s.log + [Resolved(Starts(s.log), tenant.tenantId)],
                tasks := s.tasks[id := s.tasks[id].(phase := AwaitData(tenant.tenantId))])
  }

  /** The newest refresh learns its tenants: it makes the chosen one active and waits for its
      data, or asks for activation first, or denies; the display stays unless it denies. A reply
      to any other refresh changes nothing. */
  lemma TenantsResolveIffCurrent(actions: seq<Action>, id: nat, me: Me, listed: seq<Tenant>, saved: Option<string>)
    requires id in Run(actions).tasks && Run(actions).tasks[id].RefreshTask? && Run(actions).tasks[id].phase.AwaitTenants?
    ensures var a := TenantsArrive(id, me, listed, saved);
            var s, after := Run(actions), Run(actions + [a]);
            var task, allowed := s.tasks[id], AllowedFrom(me, listed);
            var criteria := Criteria(me, TrimmedOrEmpty(task.requested), task.explicitSelection, TrimmedOrEmpty(saved));
            if !NewestRefresh(s, id) then OnlySettles(s, id, after)
            else if allowed == [] && !task.explicitSelection && !task.phase.afterActivation then
              after == s.(tasks := s.tasks[id := task.(phase := AwaitActivation)])
            else if Denies(s, a) then after.log == s.log + [Denied(Starts(s.log))]
            else exists tenant :: Chooses(allowed, criteria, Some(tenant)) && Activates(s, id, tenant, after)
  {
    EveryRunKeepsInv(actions);
    var a := TenantsArrive(id, me, listed, saved);
    RunSnoc(actions, a);
    var s := Run(actions);
    var task, allowed := s.tasks[id], AllowedFrom(me, listed);
    if NewestRefresh(s, id) {
      if Denies(s, a) {
        DenialIsNoted(s, a);
      } else {
        ResolveChooses(allowed, me, TrimmedOrEmpty(task.requested), task.explicitSelection, TrimmedOrEmpty(saved));
      }
    }
  }

  /** After the activation the newest refresh asks for the tenants once more, and not again. */
  lemma ActivationAsksAgain(actions: seq<Action>, id: nat)
    requires id in Run(actions).tasks && Run(actions).tasks[id].RefreshTask? && Run(actions).tasks[id].phase.AwaitActivation?
    ensures var s, after := Run(actions), Run(actions + [ActivationDone(id)]);
            if NewestRefresh(s, id) then after == s.(tasks := s.tasks[id := s.tasks[id].(phase := AwaitTenants(true))])
            else OnlySettles(s, id, after)
  {
    EveryRunKeepsInv(actions);
    RunSnoc(actions, ActivationDone(id));
  }

  /** The step starts a refresh for what is requested: the next number, no active tenant, one more
      task that asks for the tenants, and a display that only a soft refresh keeps. */
  predicate StartsRefresh(s: State, soft: bool, requested: Option<string>, explicitSelection: bool, after: State) {
    && after.generation == s.generation + 1 && after.activeTenant == "" && NewestIsSoft(after.log) == soft
    && after.tasks == s.tasks[s.nextTask := RefreshTask(s.generation + 1, requested, explicitSelection, AwaitTenants(false))]
    && after.nextTask == s.nextTask + 1
    && (if soft then after.shell == s.shell && after.detail == s.detail else after.shell == EmptyShell && after.detail == NoDetail)
  }

  lemma BeginStarts(s: State, soft: bool, requested: Option<string>, explicitSelection: bool)
    ensures StartsRefresh(s, soft, requested, explicitSelection, Begin(s, soft, requested, explicitSelection))
  {
    LogNote(s.log, Started(s.generation + 1, soft));
  }

  /** A user with a token starts the refresh that is asked for; without one nothing happens. */
  lemma UserStartsRefresh(actions: seq<Action>, hasToken: bool, soft: bool, requested: Option<string>, explicitSelection: bool)
    ensures var s, after := Run(actions), Run(actions + [BeginRefresh(hasToken, soft, requested, explicitSelection)]);
            if hasToken then StartsRefresh(s, soft, requested, explicitSelection, after) else after == s
  {
    RunSnoc(actions, BeginRefresh(hasToken, soft, requested, explicitSelection));
    BeginStarts(Run(actions), soft, requested, explicitSelection);
  }

  /** An event of the active tenant's stream starts a soft refresh for that tenant; an event of
      any other stream does nothing. */
  lemma StreamStartsRefresh(actions: seq<Action>, tenantId: string)
    ensures var s, after := Run(actions), Run(actions + [StreamEvent(tenantId)]);
            if tenantId != "" && ActiveByLog(s.log, tenantId) then StartsRefresh(s, true, Some(tenantId), false, after) else after == s
  {
    EveryRunKeepsInv(actions);
    RunSnoc(actions, StreamEvent(tenantId));
    ActiveIff(Run(actions), tenantId);
    BeginStarts(Run(actions), true, Some(tenantId), false);
  }

  /** A handler remembers the refresh and the tenant it was begun under. */
  lemma HandlerBegins(actions: seq<Action>, tenantId: string, refreshAfter: bool)
    ensures var s, after := Run(actions), Run(actions + [BeginHandler(tenantId, refreshAfter)]);
            after == if tenantId == "" then s
                     else s.(tasks := s.tasks[s.nextTask := HandlerTask(Starts(s.log), tenantId, refreshAfter)], nextTask := s.nextTask + 1)
  {
    EveryRunKeepsInv(actions);
    RunSnoc(actions, BeginHandler(tenantId, refreshAfter));
  }

  // -------------------------------------------------------- another tenant on display

  /** The shell, or the detail, is loaded for a tenant other than the given one. */
  predicate ForeignShell(shell: Shell, tenantId: string) {
    shell.Loaded? && shell.tenantId != tenantId
  }

  predicate ForeignDetail(detail: Detail, tenantId: string) {
    detail.Detail? && detail.tenantId != tenantId
  }

  /** Once the newest refresh has resolved a tenant, another tenant's shell is on display exactly
      when one was there as the refresh began and neither a shell commit nor a denial has come
      since; and another tenant's detail exactly when one was there and neither a detail commit
      nor a denial has come since. A shell commit does not clear the detail. */
  lemma ForeignDisplayIff(actions: seq<Action>, tenantId: string)
    requires Resolved(Run(actions).generation, tenantId) in Since(Run(actions).log)
    ensures var s, since := Run(actions), Since(Run(actions).log);
            ForeignShell(s.shell, tenantId) <==>
              ForeignShell(s.shellAtStart, tenantId) && !HasShellCommit(since) && !HasDenied(since)
    ensures var s, since := Run(actions), Since(Run(actions).log);
            ForeignDetail(s.detail, tenantId) <==>
              ForeignDetail(s.detailAtStart, tenantId) && !HasDetailCommit(since) && !HasDenied(since)
  {
    EveryRunKeepsInv(actions);
    var s := Run(actions);
    var note := Resolved(s.generation, tenantId);
    if ShownFor(s, s.shell) {
      OneResolution(s.log, note, Resolved(s.generation, s.shell.tenantId));
    }
    if DetailFor(s, s.detail) {
      OneResolution(s.log, note, Resolved(s.generation, s.detail.tenantId));
    }
  }

  /** A step either starts a refresh, and then takes note of what is on display, or does not. */
  lemma StartsOrNot(s: State, a: Action)
    ensures var after := Step(s, a);
            || (after.generation == s.generation && after.shellAtStart == s.shellAtStart && after.detailAtStart == s.detailAtStart)
            || (&& after.generation == s.generation + 1
                && after.shellAtStart == after.shell && after.detailAtStart == after.detail
                && (after.shell == s.shell || after.shell == EmptyShell))
  {
  }

  /** What "as the refresh began" means: the display in the run right after the action that
      started the newest refresh; the shell then is the one before it, or none. */
  lemma {:induction false} DisplayAtStart(actions: seq<Action>) returns (k: nat)
    requires Run(actions).generation > 0
    ensures k < |actions|
    ensures var s, before, began := Run(actions), Run(actions[..k]), Run(actions[..k + 1]);
            && before.generation + 1 == began.generation == s.generation
            && s.shellAtStart == began.shell && s.detailAtStart == began.detail
            && (began.shell == before.shell || began.shell == EmptyShell)
  {
    var n := |actions| - 1;
    StartsOrNot(Run(actions[..n]), actions[n]);
    if Run(actions).generation == Run(actions[..n]).generation {
      k := DisplayAtStart(actions[..n]);
      assert actions[..n][..k] == actions[..k] && actions[..n][..k + 1] == actions[..k + 1];
    } else {
      k := n;
      assert actions[..n + 1] == actions;
    }
  }

  /** The action starts a soft refresh: a user's, a stream event's or a handler's. */
  predicate StartsSoftly(s: State, a: Action) {
    Step(s, a).generation == s.generation + 1 && NewestIsSoft(Step(s, a).log)
  }

  lemma SoftStart(s: State, a: Action)
    requires StartsSoftly(s, a)
    ensures Step(s, a).shell == s.shell && Step(s, a).activeTenant == ""
  {
    if a.BeginRefresh? {
      LogNote(s.log, Started(s.generation + 1, a.soft));
    }
  }

  lemma ReplyKeepsShell(s: State, reply: Action)
    requires reply.TenantsArrive? && s.activeTenant == "" && Step(s, reply).activeTenant != ""
    ensures Step(s, reply).shell == s.shell
  {
  }

  /** However a soft refresh is started: a reply that makes a tenant active leaves the old shell on
      display, whichever tenant it is of. */
  lemma SoftRefreshKeepsOldShell(s: State, a: Action, reply: Action)
    requires StartsSoftly(s, a) && reply.TenantsArrive? && Step(Step(s, a), reply).activeTenant != ""
    ensures Step(Step(s, a), reply).shell == s.shell
  {
    SoftStart(s, a);
    ReplyKeepsShell(Step(s, a), reply);
  }

  lemma FirstSteps(a: Tenant, me: Me)
    ensures var s := Run([BeginRefresh(true, false, None, false), TenantsArrive(0, me, [a], None)]);
            && s.generation == 1 && s.activeTenant == a.tenantId && s.nextTask == 1
            && s.tasks == map[0 := RefreshTask(1, None, false, AwaitData(a.tenantId))]
  {
    var x1, x2 := BeginRefresh(true, false, None, false), TenantsArrive(0, me, [a], None);
    assert [x1][..0] == [] && [x1, x2][..1] == [x1];
    assert Run([x1]) == Begin(INITIAL, false, None, false);
    ResolveChoosesAllowed([a], me, "", false, "");
  }

  /** The run so far: tenant "a" is active, its shell loaded and a detail of it opened. */
  function Opening(me: Me, a: Tenant): seq<Action> {
    [BeginRefresh(true, false, None, false), TenantsArrive(0, me, [a], None)]
    + [DataArrives(0)] + [BeginHandler(a.tenantId, false)] + [HandlerReply(1)]
  }

  lemma RunSnoc(actions: seq<Action>, a: Action)
    ensures Run(actions + [a]) == Step(Run(actions), a)
  {
    assert (actions + [a])[..|actions|] == actions;
  }

  lemma OpeningShows(me: Me, a: Tenant)
    requires a.tenantId != ""
    ensures var s := Run(Opening(me, a));
            && s.generation == 1 && s.activeTenant == a.tenantId && s.tasks == map[] && s.nextTask == 2
            && s.shell == Loaded(a.tenantId, 1) && s.detail == Detail(a.tenantId, 1)
  {
    var first := [BeginRefresh(true, false, None, false), TenantsArrive(0, me, [a], None)];
    FirstSteps(a, me);
    RunSnoc(first, DataArrives(0));
    var loaded := first + [DataArrives(0)];
    assert Run(loaded).tasks == map[];
    RunSnoc(loaded, BeginHandler(a.tenantId, false));
    var asked := loaded + [BeginHandler(a.tenantId, false)];
    assert Run(asked).tasks == map[1 := HandlerTask(1, a.tenantId, false)];
    RunSnoc(asked, HandlerReply(1));
  }

  /** A soft refresh from tenant "a" to tenant "b": while it loads, the shell and the detail of
      "a" are on display with "b" active; once it has loaded, the detail of "a" is still there
      beside the shell of "b". */
  lemma SoftRefreshShowsOldTenant(a: Tenant, b: Tenant, me: Me)
    requires a.tenantId == "a" && b.tenantId == "b"
    ensures var moving := Opening(me, a) + [StreamEvent("a")] + [TenantsArrive(2, me, [b], None)];
            var s, done := Run(moving), Run(moving + [DataArrives(2)]);
            && s.activeTenant == "b" && s.shell == Loaded("a", 1) && s.detail == Detail("a", 1)
            && done.activeTenant == "b" && done.shell == Loaded("b", 2) && done.detail == Detail("a", 1)
  {
    var opening := Opening(me, a);
    OpeningShows(me, a);
    RunSnoc(opening, StreamEvent("a"));
    var started := opening + [StreamEvent("a")];
    RunSnoc(started, TenantsArrive(2, me, [b], None));
    var moving := started + [TenantsArrive(2, me, [b], None)];
    RunSnoc(moving, DataArrives(2));
    StreamEventMoves(Run(opening), me, b);
  }

  lemma StreamEventMoves(s: State, me: Me, b: Tenant)
    requires s.activeTenant == "a" && s.nextTask == 2 && b.tenantId == "b"
    ensures var next := Step(Step(s, StreamEvent("a")), TenantsArrive(2, me, [b], None));
            && next.activeTenant == "b" && next.shell == s.shell && next.detail == s.detail
            && next.generation == s.generation + 1 && 2 in next.tasks
            && next.tasks[2] == RefreshTask(s.generation + 1, Some("a"), false, AwaitData("b"))
  {
    var mid := Begin(s, true, Some("a"), false);
    assert Step(s, StreamEvent("a")) == mid;
    var task := RefreshTask(s.generation + 1, Some("a"), false, AwaitTenants(false));
    assert mid.tasks[2] == task;
    OnlyChoice(b, me, TrimmedOrEmpty(Some("a")));
    assert Selected(task, me, [b], None) == Some(b);
    assert Step(mid, TenantsArrive(2, me, [b], None)) == Choose(mid, 2, task, Some(b));
  }

  lemma OnlyChoice(b: Tenant, me: Me, asked: string)
    ensures Resolve([b], me, asked, false, "") == Some(b)
  {
    ResolveChoosesAllowed([b], me, asked, false, "");
  }
}
