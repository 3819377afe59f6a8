/** The operator shell component with its references and committed views as fields. Each method
    is one stretch of code between awaits; the continuations in flight are the tasks. */
module OperatorShell {

  import opened Wrappers
  import opened TenantChoice
  import opened Refresh

  class OperatorShell {
    var generationRef: nat
    var activeTenantRef: string
    var shell: Shell
    var detail: Detail
    var tasks: map<nat, Task>
    var nextTask: nat
    /** The protocol state the fields stand for, and how it came about. */
    ghost var state: State
    ghost var trace: seq<Action>

    ghost predicate Shows()
      reads this
    {
      && generationRef == state.generation && activeTenantRef == state.activeTenant
      && shell == state.shell && detail == state.detail
      && tasks == state.tasks && nextTask == state.nextTask
    }

    ghost predicate Valid()
      reads this
    {
      Shows() && state == Run(trace)
    }

    constructor ()
      ensures Valid() && trace == []
    {
      generationRef, activeTenantRef, shell, detail, tasks, nextTask := 0, "", EmptyShell, NoDetail, map[], 0;
      state, trace := INITIAL, [];
    }

    /** What the fields show once the newest refresh has resolved a tenant: nothing of another
        tenant, except what a soft refresh found on display and nothing has replaced since. */
    lemma DisplayOfTenant(tenantId: string)
      requires Valid() && Resolved(generationRef, tenantId) in Since(state.log)
      ensures activeTenantRef == "" || activeTenantRef == tenantId
      ensures !NewestIsSoft(state.log) ==>
                && (shell == EmptyShell || shell == Loaded(tenantId, generationRef))
                && (detail == NoDetail || detail == Detail.Detail(tenantId, generationRef))
      ensures var since := Since(state.log);
              && (ForeignShell(shell, tenantId) <==>
                    ForeignShell(state.shellAtStart, tenantId) && !HasShellCommit(since) && !HasDenied(since))
              && (ForeignDetail(detail, tenantId) <==>
                    ForeignDetail(state.detailAtStart, tenantId) && !HasDetailCommit(since) && !HasDenied(since))
    {
      DisplayBelongsToTenant(trace, tenantId);
      ForeignDisplayIff(trace, tenantId);
    }

    ghost method Note(a: Action)
      requires state == Step(Run(trace), a)
      modifies this`trace
      ensures state == Run(trace) && trace == old(trace) + [a]
    {
      trace := trace + [a];
      assert trace[..|trace| - 1] == old(trace);
    }

    predicate IsCurrentTenantWork(generation: nat, tenantId: string)
      reads this
    {
      generation == generationRef && activeTenantRef == tenantId
    }

    method MarkActiveTenantDenied()
      requires Shows()
      modifies this
      ensures Shows() && state == Deny(old(state)) && trace == old(trace)
    {
      activeTenantRef := "";
      shell := EmptyShell;
      detail := NoDetail;
      state := Deny(state);
    }

    method Await(task: Task)
      requires Shows()
      modifies this
      ensures Shows() && state == Spawn(old(state), task) && trace == old(trace)
    {
      tasks := tasks[nextTask := task];
      nextTask := nextTask + 1;
      state := Spawn(state, task);
    }

    method Settle(id: nat)
      requires Shows()
      modifies this
      ensures Shows() && state == Drop(old(state), id) && trace == old(trace)
    {
      tasks := tasks - {id};
      state := Drop(state, id);
    }

    method StartRefresh(soft: bool, requested: Option<string>, explicitSelection: bool)
      requires Shows()
      modifies this
      ensures Shows() && state == Begin(old(state), soft, requested, explicitSelection) && trace == old(trace)
    {
      var generation := generationRef + 1;
      generationRef := generation;
      activeTenantRef := "";
      if !soft {
        detail := NoDetail;
        shell := EmptyShell;
      }
      state := Log(state.(generation := generation, activeTenant := "", shell := shell, detail := detail,
                          shellAtStart := shell, detailAtStart := detail), Started(generation, soft));
      Await(RefreshTask(generation, requested, explicitSelection, AwaitTenants(false)));
    }

    /** `refreshShell`, up to its first await. */
    method RefreshShell(hasToken: bool, soft: bool, requested: Option<string>, explicitSelection: bool)
      requires Valid()
      modifies this
      ensures Valid() && trace == old(trace) + [BeginRefresh(hasToken, soft, requested, explicitSelection)]
    {
      if hasToken {
        StartRefresh(soft, requested, explicitSelection);
      }
      Note(BeginRefresh(hasToken, soft, requested, explicitSelection));
    }

    method ChooseTenant(id: nat, selected: Option<Tenant>)
      requires Shows() && id in tasks && tasks[id].RefreshTask?
      modifies this
      ensures Shows() && state == Choose(old(state), id, old(tasks)[id], selected) && trace == old(trace)
    {
      var task := tasks[id];
      if selected.None? {
        Settle(id);
        MarkActiveTenantDenied();
      } else {
        activeTenantRef := selected.value.tenantId;
        tasks := tasks[id := task.(phase := AwaitData(selected.value.tenantId))];
        state := Choose(state, id, task, selected);
      }
    }

    /** The principal and the tenant list have arrived. */
    method OnTenants(id: nat, me: Me, listed: seq<Tenant>, saved: Option<string>)
      requires Valid()
      modifies this
      ensures Valid() && trace == old(trace) + [TenantsArrive(id, me, listed, saved)]
    {
      if id in tasks && tasks[id].RefreshTask? && tasks[id].phase.AwaitTenants? {
        var task := tasks[id];
        var allowed := if listed != [] then listed else me.allowed;
        if task.generation != generationRef {
          Settle(id);
        } else if allowed == [] && !task.explicitSelection && !task.phase.afterActivation {
          tasks := tasks[id := task.(phase := AwaitActivation)];
          state := state.(tasks := tasks);
        } else {
          ChooseTenant(id, Selected(task, me, allowed, saved));
        }
      }
      Note(TenantsArrive(id, me, listed, saved));
    }

    method OnActivated(id: nat)
      requires Valid()
      modifies this
      ensures Valid() && trace == old(trace) + [ActivationDone(id)]
    {
      if id in tasks && tasks[id].RefreshTask? && tasks[id].phase.AwaitActivation? {
        if tasks[id].generation != generationRef {
          Settle(id);
        } else {
          tasks := tasks[id := tasks[id].(phase := AwaitTenants(true))];
          state := state.(tasks := tasks);
        }
      }
      Note(ActivationDone(id));
    }

    /** All of the tenant's data has arrived: commit it if it is still wanted. */
    method OnData(id: nat)
      requires Valid()
      modifies this
      ensures Valid() && trace == old(trace) + [DataArrives(id)]
      ensures old(NewestRefresh(state, id) && tasks[id].phase.AwaitData? && !HasDenied(Since(state.log))) ==>
                shell == Loaded(old(tasks[id].phase.tenantId), generationRef)
    {
      if NewestRefresh(state, id) && tasks[id].phase.AwaitData? {
        DataIsCommittedIffCurrent(trace, id);
        EveryRunKeepsInv(trace);
      }
      if id in tasks && tasks[id].RefreshTask? && tasks[id].phase.AwaitData? {
        var task := tasks[id];
        var tenantId := task.phase.tenantId;
        Settle(id);
        if IsCurrentTenantWork(task.generation, tenantId) {
          shell := Loaded(tenantId, task.generation);
          state := Log(state.(shell := shell), ShellCommitted(task.generation, tenantId));
        }
      }
      Note(DataArrives(id));
    }

    /** An awaited request of a refresh or a handler has failed. */
    method OnFailure(id: nat, denied: bool)
      requires Valid()
      modifies this
      ensures Valid() && trace == old(trace) + [TaskFails(id, denied)]
      ensures old(Denies(state, TaskFails(id, denied))) ==> activeTenantRef == "" && shell == EmptyShell && detail == NoDetail
    {
      if Denies(state, TaskFails(id, denied)) {
        DeniedAtOnce(trace, TaskFails(id, denied));
      }
      if id in tasks {
        var task := tasks[id];
        Settle(id);
        var current := if task.HandlerTask? then IsCurrentTenantWork(task.generation, task.tenantId)
                       else task.generation == generationRef;
        if current && denied {
          MarkActiveTenantDenied();
        }
      }
      Note(TaskFails(id, denied));
    }

    /** `inspectRoute` and the action handlers, up to their first await. */
    method StartHandler(tenantId: string, refreshAfter: bool)
      requires Valid()
      modifies this
      ensures Valid() && trace == old(trace) + [BeginHandler(tenantId, refreshAfter)]
    {
      if tenantId != "" {
        Await(HandlerTask(generationRef, tenantId, refreshAfter));
      }
      Note(BeginHandler(tenantId, refreshAfter));
    }

    method OnHandlerReply(id: nat)
      requires Valid()
      modifies this
      ensures Valid() && trace == old(trace) + [HandlerReply(id)]
      ensures old(CurrentHandler(state, id)) ==> detail == Detail.Detail(old(tasks[id].tenantId), old(generationRef))
    {
      if CurrentHandler(state, id) {
        ReplyIsCommittedIffCurrent(trace, id);
        EveryRunKeepsInv(trace);
      }
      if id in tasks && tasks[id].HandlerTask? {
        var task := tasks[id];
        Settle(id);
        if IsCurrentTenantWork(task.generation, task.tenantId) {
          detail := Detail.Detail(task.tenantId, task.generation);
          state := Log(state.(detail := detail), DetailCommitted(task.generation, task.tenantId));
          if task.refreshAfter {
            StartRefresh(true, Some(task.tenantId), false);
          }
        }
      }
      Note(HandlerReply(id));
    }

    method OnStreamEvent(tenantId: string)
      requires Valid()
      modifies this
      ensures Valid() && trace == old(trace) + [StreamEvent(tenantId)]
    {
      if tenantId != "" && activeTenantRef == tenantId {
        StartRefresh(true, Some(tenantId), false);
      }
      Note(StreamEvent(tenantId));
    }

    method OnStreamError(tenantId: string, denied: bool)
      requires Valid()
      modifies this
      ensures Valid() && trace == old(trace) + [StreamFails(tenantId, denied)]
      ensures old(Denies(state, StreamFails(tenantId, denied))) ==> activeTenantRef == "" && shell == EmptyShell && detail == NoDetail
    {
      if Denies(state, StreamFails(tenantId, denied)) {
        DeniedAtOnce(trace, StreamFails(tenantId, denied));
      }
      if tenantId != "" && activeTenantRef == tenantId && denied {
        MarkActiveTenantDenied();
      }
      Note(StreamFails(tenantId, denied));
    }
  }
}
