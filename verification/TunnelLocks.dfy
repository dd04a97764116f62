/** Lock ownership, lock order and progress.  Nothing here depends on what the
    client does with ids or on how many tunnel files are open. */
module TunnelLocks {
  import opened Common
  import opened TunnelThreads

  /** A mutex is held by exactly the thread whose program counter says so. */
  ghost predicate Locks(s: State) {
    && (forall t :: 0 <= t < |s.pcs| ==>
          (HoldsIn(s.pcs[t]) <==> s.inLock == Some(t)) && (HoldsPe(s.pcs[t]) <==> s.peLock == Some(t)))
    && (s.inLock.Some? ==> s.inLock.value < |s.pcs|)
    && (s.peLock.Some? ==> s.peLock.value < |s.pcs|)
  }

  /** How a step may change who holds a mutex: not at all, take it, or give it up. */
  predicate Handover(held: bool, lock: Option<nat>, heldAfter: bool, lockAfter: Option<nat>, t: nat) {
    || (held == heldAfter && lock == lockAfter)
    || (!held && heldAfter && lock.None? && lockAfter == Some(t))
    || (held && !heldAfter && lockAfter.None?)
  }

  /** A step moves only its own thread, and takes and gives up mutexes as its
      program counter says. */
  predicate Shape(s: State, t: nat, r: State) {
    && t < |s.pcs| == |r.pcs|
    && r.pcs == s.pcs[t := r.pcs[t]]
    && Handover(HoldsIn(s.pcs[t]), s.inLock, HoldsIn(r.pcs[t]), r.inLock, t)
    && Handover(HoldsPe(s.pcs[t]), s.peLock, HoldsPe(r.pcs[t]), r.peLock, t)
  }

  lemma MrShape(s: State, t: nat, d: Dir, m: MrPc)
    requires t < |s.pcs| && s.pcs[t] == Submitting(d, m) && KernelEnabled(s, t, true)
    ensures Shape(s, t, MrStep(s, t, d, m))
  {
  }

  lemma RdShape(s: State, t: nat, f: nat, m: RdPc, c: bool)
    requires t < |s.pcs| && s.pcs[t] == Reading(f, m) && KernelEnabled(s, t, c)
    ensures Shape(s, t, RdStep(s, t, f, m, c))
  {
  }

  lemma DlShape(s: State, t: nat, f: nat, m: DlPc)
    requires t < |s.pcs| && s.pcs[t] == Delivering(f, m) && KernelEnabled(s, t, true)
    ensures Shape(s, t, DlStep(s, t, f, m))
  {
  }

  lemma SetShape(s: State, t: nat, f: nat, m: SetPc)
    requires t < |s.pcs| && s.pcs[t] == Setting(f, m) && KernelEnabled(s, t, true)
    ensures Shape(s, t, SetStep(s, t, f, m))
  {
  }

  lemma FtShape(s: State, t: nat, f: nat, e: bool, m: FtPc)
    requires t < |s.pcs| && s.pcs[t] == Fetching(f, e, m) && KernelEnabled(s, t, true)
    ensures Shape(s, t, FtStep(s, t, f, e, m))
  {
  }

  lemma EnShape(s: State, t: nat, f: nat, m: EnPc)
    requires t < |s.pcs| && s.pcs[t] == Ending(f, m) && KernelEnabled(s, t, true)
    ensures Shape(s, t, EnStep(s, t, f, m))
  {
  }

  lemma UseShape(s: State, t: nat, c: bool)
    requires t < |s.pcs| && s.pcs[t].Using? && KernelEnabled(s, t, c)
    ensures Shape(s, t, UseStep(s, t, c))
  {
  }

  lemma PlShape(s: State, t: nat, f: nat, m: PlPc)
    requires t < |s.pcs| && s.pcs[t] == Polling(f, m) && KernelEnabled(s, t, true)
    ensures Shape(s, t, PlStep(s, t, f, m))
  {
  }

  lemma RlShape(s: State, t: nat, f: nat, m: RlPc)
    requires t < |s.pcs| && s.pcs[t] == Releasing(f, m) && KernelEnabled(s, t, true)
    ensures Shape(s, t, RlStep(s, t, f, m))
  {
  }

  lemma CallShape(s: State, t: nat, ev: Ev)
    requires t < |s.pcs| && CallEnabled(s, t, ev)
    ensures Shape(s, t, Call(s, t, ev))
  {
  }

  lemma NextShape(s: State, t: nat, ev: Ev)
    requires Enabled(s, t, ev)
    ensures Shape(s, t, Next(s, t, ev))
  {
    if ev.Go? {
      match s.pcs[t]
      case Submitting(d, m) => MrShape(s, t, d, m);
      case Reading(f, m) => RdShape(s, t, f, m, ev.choice);
      case Delivering(f, m) => DlShape(s, t, f, m);
      case Setting(f, m) => SetShape(s, t, f, m);
      case Fetching(f, e, m) => FtShape(s, t, f, e, m);
      case Ending(f, m) => EnShape(s, t, f, m);
      case Using(f, e) => UseShape(s, t, ev.choice);
      case Polling(f, m) => PlShape(s, t, f, m);
      case Releasing(f, m) => RlShape(s, t, f, m);
    } else {
      CallShape(s, t, ev);
    }
  }

  lemma LocksStep(s: State, t: nat, ev: Ev)
    requires Locks(s) && Enabled(s, t, ev)
    ensures Locks(Next(s, t, ev))
    ensures |Next(s, t, ev).pcs| == |s.pcs|
  {
    NextShape(s, t, ev);
    LocksFrame(s, t, Next(s, t, ev));
  }

  lemma LocksFrame(s: State, t: nat, r: State)
    requires Locks(s) && Shape(s, t, r)
    ensures Locks(r)
  {
    forall u | 0 <= u < |r.pcs|
      ensures (HoldsIn(r.pcs[u]) <==> r.inLock == Some(u)) && (HoldsPe(r.pcs[u]) <==> r.peLock == Some(u))
    {
      assert HoldsIn(s.pcs[u]) <==> s.inLock == Some(u);
      assert HoldsPe(s.pcs[u]) <==> s.peLock == Some(u);
      assert HoldsIn(s.pcs[t]) <==> s.inLock == Some(t);
      assert HoldsPe(s.pcs[t]) <==> s.peLock == Some(t);
      assert u != t ==> r.pcs[u] == s.pcs[u];
    }
  }

  lemma {:induction false} LocksAlways(n: nat, run: Schedule)
    requires Feasible(Start(n), run)
    ensures Locks(After(Start(n), run)) && |After(Start(n), run).pcs| == n
  {
    if run == [] {
    } else {
      var front, last := run[..|run| - 1], run[|run| - 1];
      LocksAlways(n, front);
      LocksStep(After(Start(n), front), last.0, last.1);
    }
  }

  /** Thread t waits for a mutex that thread u holds. */
  ghost predicate WaitsFor(s: State, t: nat, u: nat)
    requires t < |s.pcs|
  {
    (WaitsIn(s.pcs[t]) && s.inLock == Some(u)) || (WaitsPe(s.pcs[t]) && s.peLock == Some(u))
  }

  /** A chain of threads each waiting for the next. */
  ghost predicate Chain(s: State, path: seq<nat>) {
    && (forall i :: 0 <= i < |path| ==> path[i] < |s.pcs|)
    && (forall i :: 0 <= i < |path| - 1 ==> WaitsFor(s, path[i], path[i + 1]))
  }

  /** How much a blocked thread may still be blocked by: incoming before pending. */
  function Rank(pc: Pc): nat {
    if WaitsIn(pc) then 2 else if WaitsPe(pc) then 1 else 0
  }

  lemma WaitDescends(s: State, t: nat, u: nat)
    requires Locks(s) && t < |s.pcs| && WaitsFor(s, t, u)
    ensures u < |s.pcs| && Rank(s.pcs[u]) < Rank(s.pcs[t])
  {
    assert HoldsIn(s.pcs[u]) <==> s.inLock == Some(u);
    assert HoldsPe(s.pcs[u]) <==> s.peLock == Some(u);
  }

  lemma {:induction false} ChainDescends(s: State, path: seq<nat>)
    requires Locks(s) && Chain(s, path) && |path| > 0
    ensures Rank(s.pcs[path[|path| - 1]]) + |path| - 1 <= Rank(s.pcs[path[0]])
  {
    if |path| > 1 {
      var front := path[..|path| - 1];
      assert forall i :: 0 <= i < |front| - 1 ==> WaitsFor(s, front[i], front[i + 1]);
      ChainDescends(s, front);
      assert WaitsFor(s, path[|path| - 2], path[|path| - 1]);
      WaitDescends(s, path[|path| - 2], path[|path| - 1]);
    }
  }

  /** No reachable state has a wait cycle on the two mutexes: chains of waiting
      threads have at most three members and never return to their start. */
  lemma {:induction false} NoWaitCycle(n: nat, run: Schedule, path: seq<nat>)
    requires Feasible(Start(n), run) && |path| > 1 && Chain(After(Start(n), run), path)
    ensures |path| <= 3
    ensures path[0] != path[|path| - 1]
  {
    LocksAlways(n, run);
    ChainDescends(After(Start(n), run), path);
  }

  // ---- Progress ---------------------------------------------------------------------

  /** Thread t can take its next step inside its call. */
  ghost predicate CanStep(s: State, t: nat) {
    t < |s.pcs| && exists c :: KernelEnabled(s, t, c)
  }

  ghost predicate LiveAccess(s: State) {
    forall t :: 0 <= t < |s.pcs| && Touches(s.pcs[t]).Some? ==> Touches(s.pcs[t]).value in s.heap
  }

  /** If some thread is inside a call and not asleep, some thread inside a call
      can step: a blocked thread's mutex holder, or that holder's, is free to run. */
  lemma SomeoneCanStep(s: State, t: nat) returns (u: nat)
    requires Locks(s) && LiveAccess(s)
    requires t < |s.pcs| && !s.pcs[t].Idle? && !Sleeping(s, t)
    ensures u < |s.pcs| && !s.pcs[u].Idle? && !Sleeping(s, u) && CanStep(s, u)
  {
    u := t;
    if WaitsIn(s.pcs[u]) && s.inLock.Some? {
      assert WaitsFor(s, u, s.inLock.value);
      WaitDescends(s, u, s.inLock.value);
      u := s.inLock.value;
      assert HoldsIn(s.pcs[u]);
    }
    if WaitsPe(s.pcs[u]) && s.peLock.Some? {
      assert WaitsFor(s, u, s.peLock.value);
      WaitDescends(s, u, s.peLock.value);
      u := s.peLock.value;
      assert HoldsPe(s.pcs[u]);
    }
    assert KernelEnabled(s, u, false);
  }
}
