/** When closures under the supervisor's mutation locks can get stuck: exactly when every busy
    thread waits for a lock someone owns, and then some of them wait in a ring, for ever. */
module Deadlock {

  import opened Wrappers
  import opened MutationLocks

  predicate Busy(me: Thread) {
    !me.pc.Running? || me.held != []
  }

  /** The thread waits for a mutation lock that someone owns. */
  predicate Blocked(s: Locking, t: ThreadId) {
    t in s.threads && s.threads[t].pc.WantsMutation? && s.threads[t].pc.lock in s.owners
  }

  function Holder(s: Locking, t: ThreadId): ThreadId
    requires Blocked(s, t)
  {
    s.owners[s.threads[t].pc.lock]
  }

  /** Nothing is possible but that idle threads begin something. */
  ghost predicate Stuck(s: Locking) {
    forall step :: Enabled(s, step) ==> step.action.Begin?
  }

  predicate AllBlocked(s: Locking) {
    forall t :: t in s.threads && Busy(s.threads[t]) ==> Blocked(s, t)
  }

  lemma StuckIsBlocked(schedule: seq<Step>, t: ThreadId)
    requires Possible(schedule) && Stuck(After(schedule).locking)
    requires t in After(schedule).locking.threads && Busy(After(schedule).locking.threads[t])
    ensures Blocked(After(schedule).locking, t)
  {
    EveryScheduleKeepsInv(schedule);
    var s := After(schedule).locking;
    OwnThread(s, t);
    if s.registryOwner.Some? {
      var owner := s.registryOwner.value;
      assert !Enabled(s, Step(owner, WriteRegistry)) && !Enabled(s, Step(owner, ReadRegistry));
      RegistryHolderNeverWaits(schedule);
    }
    assert !Enabled(s, Step(t, TakeRegistry)) && !Enabled(s, Step(t, Finish)) && !Enabled(s, Step(t, TakeMutation));
  }

  lemma BlockedOnlyBegin(s: Locking, step: Step)
    requires AllBlocked(s) && Enabled(s, step)
    ensures step.action.Begin?
  {
    assert step.thread in s.threads && Busy(s.threads[step.thread]) ==> Blocked(s, step.thread);
  }

  /** A state is stuck exactly when every busy thread waits for a mutation lock someone owns. */
  lemma StuckIffAllBlocked(schedule: seq<Step>)
    requires Possible(schedule)
    ensures Stuck(After(schedule).locking) <==> AllBlocked(After(schedule).locking)
  {
    var s := After(schedule).locking;
    if Stuck(s) {
      forall t | t in s.threads && Busy(s.threads[t]) ensures Blocked(s, t) {
        StuckIsBlocked(schedule, t);
      }
    }
    if AllBlocked(s) {
      forall step | Enabled(s, step) ensures step.action.Begin? {
        BlockedOnlyBegin(s, step);
      }
    }
  }

  /** A set of threads that wait for each other only. */
  ghost predicate WaitsWithin(s: Locking, c: set<ThreadId>) {
    forall t :: t in c ==> Blocked(s, t) && Holder(s, t) in c
  }

  lemma WaitersStay(s: Locking, step: Step, c: set<ThreadId>)
    requires Inv(s) && Enabled(s, step) && WaitsWithin(s, c)
    ensures WaitsWithin(Move(s, step), c)
    ensures forall t :: t in c ==> Move(s, step).threads[t] == s.threads[t]
  {
    var after := Move(s, step);
    OwnThread(s, step.thread);
    assert step.thread !in c;
    forall t | t in c ensures Blocked(after, t) && Holder(after, t) in c && after.threads[t] == s.threads[t] {
      assert Blocked(s, t) && Holder(s, t) in c;
    }
  }

  /** Threads that wait for each other only never move again, whatever the others do. */
  lemma {:induction false} WaitersNeverMove(schedule: seq<Step>, more: seq<Step>, c: set<ThreadId>)
    requires Possible(schedule) && Possible(schedule + more) && WaitsWithin(After(schedule).locking, c)
    ensures WaitsWithin(After(schedule + more).locking, c)
    ensures forall t :: t in c ==> After(schedule + more).locking.threads[t] == After(schedule).locking.threads[t]
    decreases |more|
  {
    var all := schedule + more;
    if more == [] {
      assert all == schedule;
    } else {
      var init := more[..|more| - 1];
      assert all[..|all| - 1] == schedule + init;
      WaitersNeverMove(schedule, init, c);
      EveryScheduleKeepsInv(schedule + init);
      WaitersStay(After(schedule + init).locking, all[|all| - 1], c);
    }
  }

  /** A closure that asks for its own connector again waits for itself, and for ever. */
  lemma NestingTheSameConnectorHangs(schedule: seq<Step>, t: ThreadId, i: nat)
    requires Possible(schedule) && t in After(schedule).locking.threads
    requires var me := After(schedule).locking.threads[t];
             me.pc.WantsMutation? && i < |me.held| && me.held[i].id == me.pc.id
    ensures WaitsWithin(After(schedule).locking, {t})
  {
    EveryScheduleKeepsInv(schedule);
    var s := After(schedule).locking;
    OwnThread(s, t);
  }

  /** Threads in a ring, each waiting for a lock the next one owns. */
  predicate Ring(s: Locking, ring: seq<ThreadId>) {
    ring != [] && forall i :: 0 <= i < |ring| ==> Link(s, ring, i)
  }

  predicate Link(s: Locking, ring: seq<ThreadId>, i: nat)
    requires i < |ring|
  {
    WaitsFor(s, ring[i], ring[if i + 1 < |ring| then i + 1 else 0])
  }

  predicate WaitsFor(s: Locking, t: ThreadId, u: ThreadId) {
    Blocked(s, t) && Holder(s, t) == u
  }

  /** The threads met when following the holders from `t`. */
  function Chain(s: Locking, c: set<ThreadId>, t: ThreadId, n: nat): (chain: seq<ThreadId>)
    requires WaitsWithin(s, c) && t in c
    ensures |chain| == n + 1
    ensures forall i :: 0 <= i < |chain| ==> chain[i] in c
    ensures forall i :: 0 < i < |chain| ==> WaitsFor(s, chain[i - 1], chain[i])
  {
    if n == 0 then [t]
    else
      var chain := Chain(s, c, t, n - 1);
      chain + [Holder(s, chain[n - 1])]
  }

  /** More entries than elements: one comes twice. */
  lemma {:induction false} ComesTwice(chain: seq<ThreadId>, c: set<ThreadId>) returns (i: nat, j: nat)
    requires |chain| > |c| && forall k :: 0 <= k < |chain| ==> chain[k] in c
    ensures i < j < |chain| && chain[i] == chain[j]
    decreases |chain|
  {
    var n := |chain| - 1;
    var last := chain[n];
    if k :| 0 <= k < n && chain[k] == last {
      i, j := k, n;
    } else {
      i, j := ComesTwice(chain[..n], c - {last});
    }
  }

  lemma RingFromChain(s: Locking, chain: seq<ThreadId>, i: nat, j: nat) returns (ring: seq<ThreadId>)
    requires i < j < |chain| && chain[i] == chain[j]
    requires forall k :: 0 < k < |chain| ==> WaitsFor(s, chain[k - 1], chain[k])
    ensures Ring(s, ring)
  {
    ring := chain[i..j];
    forall k | 0 <= k < |ring| ensures Link(s, ring, k) {
      var next := i + k + 1;
      assert WaitsFor(s, chain[next - 1], chain[next]);
    }
  }

  /** A stuck state with a busy thread has a ring of threads that wait for each other; by
      `WaitersNeverMove` none of them ever goes on. */
  lemma StuckHasRing(schedule: seq<Step>, busy: ThreadId) returns (ring: seq<ThreadId>)
    requires Possible(schedule) && Stuck(After(schedule).locking)
    requires busy in After(schedule).locking.threads && Busy(After(schedule).locking.threads[busy])
    ensures Ring(After(schedule).locking, ring)
    ensures WaitsWithin(After(schedule).locking, set t | t in ring)
  {
    var s := After(schedule).locking;
    var c := set t | t in s.threads && Busy(s.threads[t]);
    BusyWaitWithin(schedule, c);
    var chain := Chain(s, c, busy, |c|);
    var i, j := ComesTwice(chain, c);
    ring := RingFromChain(s, chain, i, j);
    RingWaitsWithin(s, ring);
  }

  lemma BusyWaitWithin(schedule: seq<Step>, c: set<ThreadId>)
    requires Possible(schedule) && Stuck(After(schedule).locking)
    requires var s := After(schedule).locking; c == set t | t in s.threads && Busy(s.threads[t])
    ensures WaitsWithin(After(schedule).locking, c)
  {
    EveryScheduleKeepsInv(schedule);
    var s := After(schedule).locking;
    forall t | t in c ensures Blocked(s, t) && Holder(s, t) in c {
      StuckIsBlocked(schedule, t);
      assert Accounted(s, s.threads[t].pc.lock);
    }
  }

  lemma RingWaitsWithin(s: Locking, ring: seq<ThreadId>)
    requires Ring(s, ring)
    ensures WaitsWithin(s, set t | t in ring)
  {
    forall t | t in ring ensures Blocked(s, t) && Holder(s, t) in ring {
      var i :| 0 <= i < |ring| && ring[i] == t;
      assert Link(s, ring, i);
    }
  }

  /** While no thread waits for a mutation lock with another one in hand, some busy thread can go on. */
  lemma NoDeadlockWithoutNesting(schedule: seq<Step>, busy: ThreadId)
    requires Possible(schedule)
    requires forall t :: t in After(schedule).locking.threads && After(schedule).locking.threads[t].pc.WantsMutation? ==>
                           After(schedule).locking.threads[t].held == []
    requires busy in After(schedule).locking.threads && Busy(After(schedule).locking.threads[busy])
    ensures !Stuck(After(schedule).locking)
  {
    var s := After(schedule).locking;
    if Stuck(s) {
      EveryScheduleKeepsInv(schedule);
      StuckIsBlocked(schedule, busy);
      var u := Holder(s, busy);
      assert Accounted(s, s.threads[busy].pc.lock);
      StuckIsBlocked(schedule, u);
    }
  }
}
