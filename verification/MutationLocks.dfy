/** The supervisor's two levels of locking under any interleaving of threads: the registry lock
    that every call takes briefly, and one lazily created mutation lock per connector, under
    which `with_connector_mutation` runs its closure. Under the registry lock a thread first reads
    and later writes; other threads may take steps in between. */
module MutationLocks {

  import opened Wrappers
  import S = Supervisor

  type ThreadId = nat
  type LockId = nat

  /** Why a thread takes the registry lock: to fetch a mutation lock, or to make a registry call
      (a restore is one of these calls). */
  datatype Purpose = Fetch(id: string) | Call(op: S.Op)

  datatype Pc =
    | Running
    | WantsRegistry(purpose: Purpose)
    | InRegistry(purpose: Purpose)
    | Working(purpose: Purpose, registry: S.Registry, locks: map<string, LockId>)
    | WantsMutation(id: string, lock: LockId)

  /** A closure in progress: the connector it is for and the lock object it was given. */
  datatype Hold = Hold(id: string, lock: LockId)

  /** Closures may nest, so a thread holds a stack of mutation locks. */
  datatype Thread = Thread(pc: Pc, held: seq<Hold>)

  datatype Locking = Locking(
    threads: map<ThreadId, Thread>,
    registryOwner: Option<ThreadId>,
    registry: S.Registry,
    locks: map<string, LockId>,
    owners: map<LockId, ThreadId>,
    nextLock: LockId)

  /** A finished registry call and the answer its thread got. */
  datatype Made = Made(op: S.Op, reply: S.Reply)

  /** The locks and what they guard, and the registry calls in the order they were finished. */
  datatype State = State(locking: Locking, log: seq<Made>)

  datatype Action =
    | Begin(purpose: Purpose)
    | TakeRegistry
    | ReadRegistry
    | WriteRegistry
    | TakeMutation
    | Finish

  datatype Step = Step(thread: ThreadId, action: Action)

  function ThreadOf(s: Locking, t: ThreadId): Thread {
    if t in s.threads then s.threads[t] else Thread(Running, [])
  }

  /** A blocking lock operation is a step that is possible only while the lock is free. */
  predicate Enabled(s: Locking, step: Step) {
    var me := ThreadOf(s, step.thread);
    match step.action
    case Begin(_) => me.pc.Running?
    case TakeRegistry => me.pc.WantsRegistry? && s.registryOwner == None
    case ReadRegistry => me.pc.InRegistry?
    case WriteRegistry => me.pc.Working?
    case TakeMutation => me.pc.WantsMutation? && me.pc.lock !in s.owners
    case Finish => me.pc.Running? && me.held != []
  }

  function Put(s: Locking, t: ThreadId, me: Thread): Locking {
    s.(threads := s.threads[t := me])
  }

  /** What a thread writes on the strength of what it read: a fetch finds the connector's lock
      object or creates it, a call replaces the registry. Either way the registry lock is released;
      a fetched object is locked only after that. */
  function Leave(s: Locking, t: ThreadId, held: seq<Hold>, pc: Pc): Locking
    requires pc.Working?
  {
    var free := s.(registryOwner := None);
    match pc.purpose
    case Fetch(id) =>
      if id in pc.locks then Put(free, t, Thread(WantsMutation(id, pc.locks[id]), held))
      else Put(free.(locks := pc.locks[id := s.nextLock], nextLock := s.nextLock + 1), t,
               Thread(WantsMutation(id, s.nextLock), held))
    case Call(op) => Put(free.(registry := S.Apply(pc.registry, op).registry), t, Thread(Running, held))
  }

  function Move(s: Locking, step: Step): Locking
    requires Enabled(s, step)
  {
    var t := step.thread;
    var me := ThreadOf(s, t);
    match step.action
    case Begin(purpose) => Put(s, t, me.(pc := WantsRegistry(purpose)))
    case TakeRegistry => Put(s.(registryOwner := Some(t)), t, me.(pc := InRegistry(me.pc.purpose)))
    case ReadRegistry => Put(s, t, me.(pc := Working(me.pc.purpose, s.registry, s.locks)))
    case WriteRegistry => Leave(s, t, me.held, me.pc)
    case TakeMutation =>
      Put(s.(owners := s.owners[me.pc.lock := t]), t,
          Thread(Running, me.held + [Hold(me.pc.id, me.pc.lock)]))
    case Finish =>
      var n := |me.held| - 1;
      Put(s.(owners := s.owners - {me.held[n].lock}), t, Thread(Running, me.held[..n]))
  }

  /** One step: the locks move, and a registry call that is finished in it is noted. */
  function Do(s: State, step: Step): State
    requires Enabled(s.locking, step)
  {
    var pc := ThreadOf(s.locking, step.thread).pc;
    var next := s.(locking := Move(s.locking, step));
    if step.action.WriteRegistry? && pc.purpose.Call? then
      next.(log := s.log + [Made(pc.purpose.op, S.Apply(pc.registry, pc.purpose.op).reply)])
    else next
  }

  const START := State(Locking(map[], None, S.EMPTY, map[], map[], 0), [])

  /** A schedule is possible when each of its steps is enabled where it comes. */
  predicate Possible(schedule: seq<Step>)
    decreases |schedule|, 0
  {
    schedule == [] ||
    (Possible(schedule[..|schedule| - 1]) && Enabled(After(schedule[..|schedule| - 1]).locking, schedule[|schedule| - 1]))
  }

  function After(schedule: seq<Step>): State
    requires Possible(schedule)
    decreases |schedule|, 1
  {
    if schedule == [] then START
    else Do(After(schedule[..|schedule| - 1]), schedule[|schedule| - 1])
  }

  // ------------------------------------------------------------- the invariant

  predicate Registered(s: Locking, id: string, lock: LockId) {
    id in s.locks && s.locks[id] == lock
  }

  /** Different connectors have different lock objects, all older than the next one. */
  ghost predicate LockTable(locks: map<string, LockId>, nextLock: LockId) {
    && (forall id :: id in locks ==> locks[id] < nextLock)
    && (forall a, b :: a in locks && b in locks && a != b ==> locks[a] != locks[b])
  }

  lemma NewLock(locks: map<string, LockId>, nextLock: LockId, id: string)
    requires LockTable(locks, nextLock) && id !in locks
    ensures LockTable(locks[id := nextLock], nextLock + 1)
  {
  }

  /** A thread's holds are registered lock objects that it owns, each once; only the owner of the
      registry lock is inside, and what it has read is still there. */
  ghost predicate ThreadInv(s: Locking, t: ThreadId, me: Thread) {
    && (forall i :: 0 <= i < |me.held| ==>
          && Registered(s, me.held[i].id, me.held[i].lock)
          && me.held[i].lock in s.owners && s.owners[me.held[i].lock] == t)
    && (forall i, j :: 0 <= i < j < |me.held| ==> me.held[i].lock != me.held[j].lock)
    && (me.pc.WantsMutation? ==> Registered(s, me.pc.id, me.pc.lock))
    && (me.pc.InRegistry? || me.pc.Working? <==> s.registryOwner == Some(t))
    && (me.pc.Working? ==> me.pc.registry == s.registry && me.pc.locks == s.locks)
  }

  /** Every owned lock object is held by its owner. */
  predicate Holds(me: Thread, lock: LockId) {
    exists i :: 0 <= i < |me.held| && me.held[i].lock == lock
  }

  predicate Accounted(s: Locking, l: LockId) {
    l in s.owners ==> s.owners[l] in s.threads && Holds(s.threads[s.owners[l]], l)
  }

  ghost predicate OwnersInv(s: Locking) {
    forall l {:trigger Accounted(s, l)} :: Accounted(s, l)
  }

  ghost predicate Safe(s: Locking, t: ThreadId) {
    t in s.threads ==> ThreadInv(s, t, s.threads[t])
  }

  ghost predicate Inv(s: Locking) {
    && LockTable(s.locks, s.nextLock)
    && (forall t {:trigger Safe(s, t)} :: Safe(s, t))
    && OwnersInv(s)
    && (s.registryOwner.Some? ==> s.registryOwner.value in s.threads)
  }

  /** Lock objects stay registered, `u`'s own stay `u`'s, and nothing changes while `u` is inside. */
  ghost predicate Undisturbed(s: Locking, after: Locking, u: ThreadId) {
    && (forall id :: id in s.locks ==> id in after.locks && after.locks[id] == s.locks[id])
    && (forall l :: l in s.owners && s.owners[l] == u ==> l in after.owners && after.owners[l] == u)
    && (s.registryOwner == Some(u) <==> after.registryOwner == Some(u))
    && (s.registryOwner == Some(u) ==> after.registry == s.registry && after.locks == s.locks)
  }

  lemma ThreadInvFrame(s: Locking, after: Locking, u: ThreadId, me: Thread)
    requires ThreadInv(s, u, me) && Undisturbed(s, after, u)
    ensures ThreadInv(after, u, me)
  {
  }

  /** A step of `t` is safe for all threads when it is for `t` and leaves the others undisturbed. */
  lemma OthersKeepInv(s: Locking, after: Locking, t: ThreadId)
    requires forall u {:trigger Safe(s, u)} :: Safe(s, u)
    requires t in after.threads && after.threads == s.threads[t := after.threads[t]]
    requires ThreadInv(after, t, after.threads[t])
    requires forall u :: u in s.threads && u != t ==> Undisturbed(s, after, u)
    ensures forall u {:trigger Safe(after, u)} :: Safe(after, u)
  {
    forall u ensures Safe(after, u) {
      if u in after.threads && u != t {
        assert Safe(s, u);
        ThreadInvFrame(s, after, u, s.threads[u]);
      }
    }
  }

  lemma OwnThread(s: Locking, t: ThreadId)
    requires Inv(s)
    ensures ThreadInv(s, t, ThreadOf(s, t))
  {
    assert Safe(s, t);
  }

  lemma BeginKeepsInv(s: Locking, t: ThreadId, purpose: Purpose)
    requires Inv(s) && Enabled(s, Step(t, Begin(purpose)))
    ensures Inv(Move(s, Step(t, Begin(purpose))))
  {
    var after := Move(s, Step(t, Begin(purpose)));
    OwnThread(s, t);
    OthersKeepInv(s, after, t);
    OwnersKept(s, after, t);
  }

  lemma TakeRegistryKeepsInv(s: Locking, t: ThreadId)
    requires Inv(s) && Enabled(s, Step(t, TakeRegistry))
    ensures Inv(Move(s, Step(t, TakeRegistry)))
  {
    var after := Move(s, Step(t, TakeRegistry));
    OwnThread(s, t);
    OthersKeepInv(s, after, t);
    OwnersKept(s, after, t);
  }

  lemma ReadRegistryKeepsInv(s: Locking, t: ThreadId)
    requires Inv(s) && Enabled(s, Step(t, ReadRegistry))
    ensures Inv(Move(s, Step(t, ReadRegistry)))
  {
    var after := Move(s, Step(t, ReadRegistry));
    OwnThread(s, t);
    OthersKeepInv(s, after, t);
    OwnersKept(s, after, t);
  }

  /** Leaving the registry: if what was read is current, the lock table may only have grown by
      one fresh object. */
  lemma LeaveKeepsLocks(s: Locking, t: ThreadId, held: seq<Hold>, pc: Pc)
    requires LockTable(s.locks, s.nextLock) && pc.Working? && pc.locks == s.locks
    ensures var after := Leave(s, t, held, pc);
            && LockTable(after.locks, after.nextLock)
            && after.owners == s.owners
            && after.registryOwner == None
            && (forall id :: id in s.locks ==> id in after.locks && after.locks[id] == s.locks[id])
            && after.threads == s.threads[t := after.threads[t]]
            && after.threads[t].held == held
            && (after.threads[t].pc.WantsMutation? ==>
                  Registered(after, after.threads[t].pc.id, after.threads[t].pc.lock))
            && (after.threads[t].pc.WantsMutation? || after.threads[t].pc.Running?)
  {
    if pc.purpose.Fetch? && pc.purpose.id !in s.locks {
      NewLock(s.locks, s.nextLock, pc.purpose.id);
    }
  }

  lemma WriteRegistryKeepsInv(s: Locking, t: ThreadId)
    requires Inv(s) && Enabled(s, Step(t, WriteRegistry))
    ensures Inv(Move(s, Step(t, WriteRegistry)))
  {
    var me := ThreadOf(s, t);
    var after := Leave(s, t, me.held, me.pc);
    OwnThread(s, t);
    LeaveKeepsLocks(s, t, me.held, me.pc);
    OthersKeepInv(s, after, t);
    OwnersKept(s, after, t);
  }

  /** Ownership stays accounted for while the thread's holds do not change. */
  lemma OwnersKept(s: Locking, after: Locking, t: ThreadId)
    requires OwnersInv(s) && after.owners == s.owners
    requires t in after.threads && after.threads == s.threads[t := after.threads[t]]
    requires after.threads[t].held == ThreadOf(s, t).held
    ensures OwnersInv(after)
  {
    forall l ensures Accounted(after, l) {
      assert Accounted(s, l);
    }
  }

  /** The lock a thread has just taken joins its holds. */
  lemma TakeMutationKeepsThread(s: Locking, t: ThreadId)
    requires Inv(s) && Enabled(s, Step(t, TakeMutation))
    ensures var after := Move(s, Step(t, TakeMutation));
            ThreadInv(after, t, after.threads[t])
  {
    OwnThread(s, t);
  }

  lemma TakeMutationKeepsInv(s: Locking, t: ThreadId)
    requires Inv(s) && Enabled(s, Step(t, TakeMutation))
    ensures Inv(Move(s, Step(t, TakeMutation)))
  {
    var me, after := ThreadOf(s, t), Move(s, Step(t, TakeMutation));
    TakeMutationKeepsThread(s, t);
    OthersKeepInv(s, after, t);
    var now := after.threads[t];
    assert now.held[|me.held|].lock == me.pc.lock;
    forall l ensures Accounted(after, l) {
      assert Accounted(s, l);
      if l in s.owners && l != me.pc.lock && s.owners[l] == t {
        var i :| 0 <= i < |me.held| && me.held[i].lock == l;
        assert now.held[i] == me.held[i];
      }
    }
  }

  /** The remaining holds of a thread that finishes a closure are untouched. */
  lemma FinishKeepsThread(s: Locking, t: ThreadId)
    requires Inv(s) && Enabled(s, Step(t, Finish))
    ensures var after := Move(s, Step(t, Finish));
            ThreadInv(after, t, after.threads[t])
  {
    OwnThread(s, t);
  }

  lemma FinishKeepsOwners(s: Locking, t: ThreadId)
    requires Inv(s) && Enabled(s, Step(t, Finish))
    ensures OwnersInv(Move(s, Step(t, Finish)))
  {
    var me, after := ThreadOf(s, t), Move(s, Step(t, Finish));
    forall l ensures Accounted(after, l) {
      assert Accounted(s, l);
      if l in after.owners && s.owners[l] == t {
        var i :| 0 <= i < |me.held| && me.held[i].lock == l;
        assert after.threads[t].held[i] == me.held[i];
      }
    }
  }

  lemma FinishKeepsInv(s: Locking, t: ThreadId)
    requires Inv(s) && Enabled(s, Step(t, Finish))
    ensures Inv(Move(s, Step(t, Finish)))
  {
    var me, after := ThreadOf(s, t), Move(s, Step(t, Finish));
    FinishKeepsThread(s, t);
    FinishKeepsOwners(s, t);
    var lock := me.held[|me.held| - 1].lock;
    assert lock in s.owners && s.owners[lock] == t by {
      OwnThread(s, t);
    }
    OthersKeepInv(s, after, t);
  }

  lemma {:induction false} EveryScheduleKeepsInv(schedule: seq<Step>)
    requires Possible(schedule)
    ensures Inv(After(schedule).locking)
  {
    if schedule != [] {
      var before, step := After(schedule[..|schedule| - 1]).locking, schedule[|schedule| - 1];
      EveryScheduleKeepsInv(schedule[..|schedule| - 1]);
      match step.action
      case Begin(purpose) => BeginKeepsInv(before, step.thread, purpose);
      case TakeRegistry => TakeRegistryKeepsInv(before, step.thread);
      case ReadRegistry => ReadRegistryKeepsInv(before, step.thread);
      case WriteRegistry => WriteRegistryKeepsInv(before, step.thread);
      case TakeMutation => TakeMutationKeepsInv(before, step.thread);
      case Finish => FinishKeepsInv(before, step.thread);
    }
  }

  // -------------------------------------------------------------- the theorems

  /** Closures of one connector never overlap: not in two threads, and not nested in one. */
  lemma ClosuresExcludeEachOther(schedule: seq<Step>, t: ThreadId, i: nat, u: ThreadId, j: nat)
    requires Possible(schedule)
    requires t in After(schedule).locking.threads && i < |After(schedule).locking.threads[t].held|
    requires u in After(schedule).locking.threads && j < |After(schedule).locking.threads[u].held|
    requires After(schedule).locking.threads[t].held[i].id == After(schedule).locking.threads[u].held[j].id
    ensures t == u && i == j
  {
    EveryScheduleKeepsInv(schedule);
    var s := After(schedule).locking;
    OwnThread(s, t);
    OwnThread(s, u);
  }

  /** A connector's lock object, once created, is never replaced, not even by a restore. */
  lemma {:induction false} LockObjectsPersist(schedule: seq<Step>, more: seq<Step>, id: string)
    requires Possible(schedule + more) && Possible(schedule)
    requires id in After(schedule).locking.locks
    ensures id in After(schedule + more).locking.locks
    ensures After(schedule + more).locking.locks[id] == After(schedule).locking.locks[id]
    decreases |more|
  {
    var all := schedule + more;
    if more == [] {
      assert all == schedule;
    } else {
      assert all[..|all| - 1] == schedule + more[..|more| - 1];
      LockObjectsPersist(schedule, more[..|more| - 1], id);
      EveryScheduleKeepsInv(schedule + more[..|more| - 1]);
      MoveKeepsLocks(After(schedule + more[..|more| - 1]).locking, all[|all| - 1], id);
    }
  }

  lemma MoveKeepsLocks(s: Locking, step: Step, id: string)
    requires Inv(s) && Enabled(s, step) && id in s.locks
    ensures id in Move(s, step).locks && Move(s, step).locks[id] == s.locks[id]
  {
    OwnThread(s, step.thread);
  }

  /** Whoever has the registry lock is not waiting for anything: it can read, then write, and the
      write gives the lock back. */
  lemma {:induction false} RegistryHolderNeverWaits(schedule: seq<Step>)
    requires Possible(schedule) && After(schedule).locking.registryOwner.Some?
    ensures var s := After(schedule).locking;
            var t := s.registryOwner.value;
            var read, write := Step(t, ReadRegistry), Step(t, WriteRegistry);
            || (Enabled(s, write) && Move(s, write).registryOwner == None)
            || (Enabled(s, read) && Enabled(Move(s, read), write) && Move(Move(s, read), write).registryOwner == None)
  {
    EveryScheduleKeepsInv(schedule);
    var s := After(schedule).locking;
    var t := s.registryOwner.value;
    OwnThread(s, t);
  }

  // ------------------------------------------------------- calls one after another

  function Ops(log: seq<Made>): (ops: seq<S.Op>)
    ensures |ops| == |log|
  {
    if log == [] then [] else Ops(log[..|log| - 1]) + [log[|log| - 1].op]
  }

  /** Every call got the answer it gets when the calls are made one after another. */
  predicate AnsweredInOrder(log: seq<Made>) {
    log == [] ||
    (AnsweredInOrder(log[..|log| - 1]) && log[|log| - 1].reply == S.LastReply(Ops(log)))
  }

  lemma OneMore(log: seq<Made>, made: Made)
    ensures var r := S.Run(Ops(log));
            && S.Run(Ops(log + [made])) == S.Apply(r, made.op).registry
            && S.LastReply(Ops(log + [made])) == S.Apply(r, made.op).reply
    ensures AnsweredInOrder(log) && made.reply == S.LastReply(Ops(log + [made])) ==> AnsweredInOrder(log + [made])
  {
    assert (log + [made])[..|log|] == log;
    var ops := Ops(log + [made]);
    assert ops == Ops(log) + [made.op];
    assert ops[..|ops| - 1] == Ops(log);
  }

  ghost predicate Serial(s: State) {
    s.locking.registry == S.Run(Ops(s.log)) && AnsweredInOrder(s.log)
  }

  lemma OtherStepsKeepRegistry(s: Locking, step: Step)
    requires Enabled(s, step) && !(step.action.WriteRegistry? && ThreadOf(s, step.thread).pc.purpose.Call?)
    ensures Move(s, step).registry == s.registry
  {
  }

  lemma StepStaysSerial(s: State, step: Step)
    requires Inv(s.locking) && Enabled(s.locking, step) && Serial(s)
    ensures Serial(Do(s, step))
  {
    OwnThread(s.locking, step.thread);
    var pc := ThreadOf(s.locking, step.thread).pc;
    if step.action.WriteRegistry? && pc.purpose.Call? {
      assert pc.registry == s.locking.registry;
      OneMore(s.log, Made(pc.purpose.op, S.Apply(pc.registry, pc.purpose.op).reply));
    } else {
      OtherStepsKeepRegistry(s.locking, step);
    }
  }

  /** The registry of any interleaving of reads and writes, and every answer given, are those of
      the finished calls made one after another: no thread overwrites what it has not seen. */
  lemma {:induction false} RegistryIsSerial(schedule: seq<Step>)
    requires Possible(schedule)
    ensures After(schedule).locking.registry == S.Run(Ops(After(schedule).log))
    ensures AnsweredInOrder(After(schedule).log)
  {
    if schedule != [] {
      var init := schedule[..|schedule| - 1];
      RegistryIsSerial(init);
      EveryScheduleKeepsInv(init);
      StepStaysSerial(After(init), schedule[|schedule| - 1]);
    }
  }
}
