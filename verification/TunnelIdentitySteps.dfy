/** The steps that move an entry between its places, or that change what the
    client holds, keep every address's meaning. */
module TunnelIdentitySteps {
  import opened Common
  import opened TunnelThreads
  import opened TunnelLocks
  import opened TunnelFiles
  import opened TunnelIdentity

  /** Address a heads the incoming list and carries bio b. */
  predicate Heads(s: State, a: nat, b: nat) {
    && s.incoming != [] && s.incoming[0] == a
    && a in s.heap && s.heap[a].place.OnIncoming? && s.heap[a].bio == b && !s.heap[a].done
  }

  lemma EnqueueEntries(s: State, t: nat, d: Dir, a: nat)
    requires t < |s.pcs| && s.pcs[t] == Submitting(d, MrAdd(a)) && a in s.heap && s.heap[a].place == Private(t)
    requires Lists(s) && Bios(s) && Local(s, t)
    ensures Lists(MrStep(s, t, d, MrAdd(a))) && Bios(MrStep(s, t, d, MrAdd(a)))
  {
  }

  lemma EnqueuePrivates(s: State, t: nat, d: Dir, a: nat)
    requires t < |s.pcs| && s.pcs[t] == Submitting(d, MrAdd(a)) && a in s.heap && s.heap[a].place == Private(t)
    requires Privates(s)
    ensures Privates(MrStep(s, t, d, MrAdd(a)))
  {
  }

  lemma EnqueueClient(s: State, t: nat, d: Dir, a: nat)
    requires t < |s.pcs| && s.pcs[t] == Submitting(d, MrAdd(a)) && a in s.heap && s.heap[a].place == Private(t)
    requires Privates(s) && Client(s)
    ensures Client(MrStep(s, t, d, MrAdd(a)))
  {
  }

  lemma EnqueueDeliveries(s: State, t: nat, d: Dir, a: nat)
    requires t < |s.pcs| && s.pcs[t] == Submitting(d, MrAdd(a)) && a in s.heap && s.heap[a].place == Private(t)
    requires Locks(s) && Deliveries(s)
    ensures Deliveries(MrStep(s, t, d, MrAdd(a)))
  {
  }

  lemma MoveLists(s: State, t: nat, f: nat, a: nat, b: nat)
    requires t < |s.pcs| && s.pcs[t] == Delivering(f, DlMove(a, b)) && Heads(s, a, b)
    requires Lists(s) && Bios(s) && Local(s, t)
    ensures Lists(DlStep(s, t, f, DlMove(a, b)))
  {
  }

  lemma MoveBios(s: State, t: nat, f: nat, a: nat, b: nat)
    requires t < |s.pcs| && s.pcs[t] == Delivering(f, DlMove(a, b)) && Heads(s, a, b)
    requires Lists(s) && Bios(s) && Local(s, t)
    ensures Bios(DlStep(s, t, f, DlMove(a, b)))
  {
  }

  lemma MovePrivates(s: State, t: nat, f: nat, a: nat, b: nat)
    requires t < |s.pcs| && s.pcs[t] == Delivering(f, DlMove(a, b)) && Heads(s, a, b)
    requires Privates(s)
    ensures Privates(DlStep(s, t, f, DlMove(a, b)))
  {
  }

  lemma MoveClient(s: State, t: nat, f: nat, a: nat, b: nat)
    requires t < |s.pcs| && s.pcs[t] == Delivering(f, DlMove(a, b)) && Heads(s, a, b)
    requires Client(s)
    ensures Client(DlStep(s, t, f, DlMove(a, b)))
  {
  }

  lemma MoveDeliveries(s: State, t: nat, f: nat, a: nat, b: nat)
    requires t < |s.pcs| && s.pcs[t] == Delivering(f, DlMove(a, b)) && Heads(s, a, b)
    requires Locks(s) && Deliveries(s) && Client(s)
    ensures Deliveries(DlStep(s, t, f, DlMove(a, b)))
  {
  }

  lemma HandOverPrivates(s: State, t: nat, f: nat, a: nat, b: nat)
    requires t < |s.pcs| && s.pcs[t] == Delivering(f, DlUnlock(a, b))
    requires Privates(s)
    ensures Privates(DlStep(s, t, f, DlUnlock(a, b)))
  {
  }

  lemma HandOverClient(s: State, t: nat, f: nat, a: nat, b: nat)
    requires t < |s.pcs| && s.pcs[t] == Delivering(f, DlUnlock(a, b))
    requires Client(s) && Deliveries(s)
    ensures Client(DlStep(s, t, f, DlUnlock(a, b)))
  {
  }

  lemma HandOverDeliveries(s: State, t: nat, f: nat, a: nat, b: nat)
    requires t < |s.pcs| && s.pcs[t] == Delivering(f, DlUnlock(a, b))
    requires Locks(s) && Deliveries(s)
    ensures Deliveries(DlStep(s, t, f, DlUnlock(a, b)))
  {
  }

  lemma StoreThreads(s: State, t: nat, f: nat, a: nat)
    requires t < |s.pcs| && s.pcs[t] == Setting(f, SetStore(a))
    requires Locks(s) && Privates(s) && Client(s) && Deliveries(s)
    ensures Privates(SetStep(s, t, f, SetStore(a))) && Client(SetStep(s, t, f, SetStore(a)))
    ensures Deliveries(SetStep(s, t, f, SetStore(a)))
  {
  }

  lemma SetReturnThreads(s: State, t: nat, f: nat)
    requires t < |s.pcs| && s.pcs[t] == Setting(f, SetUnlock)
    requires Locks(s) && Privates(s) && Client(s) && Deliveries(s)
    ensures Privates(SetStep(s, t, f, SetUnlock)) && Client(SetStep(s, t, f, SetUnlock))
    ensures Deliveries(SetStep(s, t, f, SetUnlock))
  {
  }

  lemma EndBioEntries(s: State, t: nat, f: nat, e: nat)
    requires t < |s.pcs| && s.pcs[t] == Ending(f, EnEnd(e)) && e in s.heap
    requires Lists(s) && Bios(s) && Local(s, t)
    ensures Lists(EnStep(s, t, f, EnEnd(e))) && Bios(EnStep(s, t, f, EnEnd(e)))
  {
  }

  lemma EndBioPrivates(s: State, t: nat, f: nat, e: nat)
    requires t < |s.pcs| && s.pcs[t] == Ending(f, EnEnd(e)) && e in s.heap
    requires Privates(s)
    ensures Privates(EnStep(s, t, f, EnEnd(e)))
  {
  }

  lemma EndBioClient(s: State, t: nat, f: nat, e: nat)
    requires t < |s.pcs| && s.pcs[t] == Ending(f, EnEnd(e)) && e in s.heap
    requires Client(s)
    ensures Client(EnStep(s, t, f, EnEnd(e)))
  {
  }

  lemma EndBioDeliveries(s: State, t: nat, f: nat, e: nat)
    requires t < |s.pcs| && s.pcs[t] == Ending(f, EnEnd(e)) && e in s.heap
    requires Locks(s) && Deliveries(s) && Client(s)
    ensures Deliveries(EnStep(s, t, f, EnEnd(e)))
  {
  }

  lemma DetachEntries(s: State, t: nat, f: nat, e: nat)
    requires t < |s.pcs| && s.pcs[t] == Ending(f, EnUnlink(e)) && e in s.heap && s.heap[e].place.OnPending?
    requires e !in s.incoming
    requires Lists(s) && Bios(s) && Local(s, t)
    ensures Lists(EnStep(s, t, f, EnUnlink(e))) && Bios(EnStep(s, t, f, EnUnlink(e)))
  {
  }

  lemma DetachPrivates(s: State, t: nat, f: nat, e: nat)
    requires t < |s.pcs| && s.pcs[t] == Ending(f, EnUnlink(e)) && e in s.heap && s.heap[e].place.OnPending?
    requires e !in s.incoming
    requires Privates(s)
    ensures Privates(EnStep(s, t, f, EnUnlink(e)))
  {
  }

  lemma DetachClient(s: State, t: nat, f: nat, e: nat)
    requires t < |s.pcs| && s.pcs[t] == Ending(f, EnUnlink(e)) && e in s.heap && s.heap[e].place.OnPending?
    requires e !in s.incoming
    requires Client(s)
    ensures Client(EnStep(s, t, f, EnUnlink(e)))
  {
  }

  lemma DetachDeliveries(s: State, t: nat, f: nat, e: nat)
    requires t < |s.pcs| && s.pcs[t] == Ending(f, EnUnlink(e)) && e in s.heap && s.heap[e].place.OnPending?
    requires e !in s.incoming
    requires Locks(s) && Deliveries(s) && Client(s)
    ensures Deliveries(EnStep(s, t, f, EnUnlink(e)))
  {
  }

  lemma FreeEntries(s: State, t: nat, f: nat, e: nat)
    requires t < |s.pcs| && s.pcs[t] == Ending(f, EnFree(e)) && e in s.heap && s.heap[e].place == Private(t)
    requires e !in s.incoming
    requires Lists(s) && Bios(s) && Local(s, t)
    ensures Lists(EnStep(s, t, f, EnFree(e))) && Bios(EnStep(s, t, f, EnFree(e)))
  {
  }

  lemma FreePrivates(s: State, t: nat, f: nat, e: nat)
    requires t < |s.pcs| && s.pcs[t] == Ending(f, EnFree(e)) && e in s.heap && s.heap[e].place == Private(t)
    requires e !in s.incoming
    requires Privates(s)
    ensures Privates(EnStep(s, t, f, EnFree(e)))
  {
  }

  lemma FreeClient(s: State, t: nat, f: nat, e: nat)
    requires t < |s.pcs| && s.pcs[t] == Ending(f, EnFree(e)) && e in s.heap && s.heap[e].place == Private(t)
    requires e !in s.incoming
    requires Client(s)
    ensures Client(EnStep(s, t, f, EnFree(e)))
  {
  }

  lemma FreeDeliveries(s: State, t: nat, f: nat, e: nat)
    requires t < |s.pcs| && s.pcs[t] == Ending(f, EnFree(e)) && e in s.heap && s.heap[e].place == Private(t)
    requires e !in s.incoming
    requires Locks(s) && Deliveries(s)
    ensures Deliveries(EnStep(s, t, f, EnFree(e)))
  {
  }

  lemma SpliceEntries(s: State, t: nat, f: nat)
    requires t < |s.pcs| && s.pcs[t] == Releasing(f, RlSplice)
    requires Lists(s) && Bios(s) && Local(s, t)
    ensures Lists(RlStep(s, t, f, RlSplice)) && Bios(RlStep(s, t, f, RlSplice))
  {
    assert forall a :: a in s.incoming ==> a !in s.pending;
    DistinctConcat(s.incoming, s.pending);
  }

  lemma SplicePrivates(s: State, t: nat, f: nat)
    requires t < |s.pcs| && s.pcs[t] == Releasing(f, RlSplice)
    requires Privates(s) && Lists(s)
    ensures Privates(RlStep(s, t, f, RlSplice))
  {
  }

  /** While a file is released every id has lapsed, and no call uses one. */
  lemma SpliceClient(s: State, t: nat, f: nat)
    requires t < |s.pcs| && s.pcs[t] == Releasing(f, RlSplice)
    requires Client(s) && Files(s) && Lists(s)
    ensures Client(RlStep(s, t, f, RlSplice))
  {
    assert f in s.closing && s.owned.Keys <= s.lapsed;
    forall u | 0 <= u < |s.pcs| ensures !ClientOp(s.pcs[u]) {
      if FileOf(s.pcs[u]).Some? {
        ReleaseIsAlone(s, t, u);
      }
    }
  }

  lemma SpliceDeliveries(s: State, t: nat, f: nat)
    requires t < |s.pcs| && s.pcs[t] == Releasing(f, RlSplice) && Files(s)
    ensures Deliveries(RlStep(s, t, f, RlSplice))
  {
    forall u | 0 <= u < |s.pcs| ensures !s.pcs[u].Delivering? {
      if FileOf(s.pcs[u]).Some? {
        ReleaseIsAlone(s, t, u);
      }
    }
  }

  lemma SubmitLists(s: State, t: nat, ev: Ev)
    requires t < |s.pcs| && ev.Submit? && CallEnabled(s, t, ev)
    requires Lists(s) && Bios(s)
    ensures Lists(Call(s, t, ev))
  {
  }

  lemma SubmitBios(s: State, t: nat, ev: Ev)
    requires t < |s.pcs| && ev.Submit? && CallEnabled(s, t, ev)
    requires Lists(s) && Bios(s)
    ensures Bios(Call(s, t, ev))
  {
  }

  lemma SubmitPrivates(s: State, t: nat, ev: Ev)
    requires t < |s.pcs| && ev.Submit? && CallEnabled(s, t, ev)
    requires Privates(s)
    ensures Privates(Call(s, t, ev))
  {
  }

  lemma SubmitClient(s: State, t: nat, ev: Ev)
    requires t < |s.pcs| && ev.Submit? && CallEnabled(s, t, ev)
    requires Client(s)
    ensures Client(Call(s, t, ev))
  {
  }

  lemma SubmitDeliveries(s: State, t: nat, ev: Ev)
    requires t < |s.pcs| && ev.Submit? && CallEnabled(s, t, ev)
    requires Deliveries(s)
    ensures Deliveries(Call(s, t, ev))
  {
  }

  lemma SubmitFailEntries(s: State, t: nat, ev: Ev)
    requires t < |s.pcs| && ev.SubmitFail? && CallEnabled(s, t, ev)
    requires Lists(s) && Bios(s)
    ensures Lists(Call(s, t, ev)) && Bios(Call(s, t, ev))
  {
    assert s.submitted !in s.ended;
  }

  lemma SubmitFailThreads(s: State, t: nat, ev: Ev)
    requires t < |s.pcs| && ev.SubmitFail? && CallEnabled(s, t, ev)
    requires Privates(s) && Client(s) && Deliveries(s)
    ensures Privates(Call(s, t, ev)) && Client(Call(s, t, ev)) && Deliveries(Call(s, t, ev))
  {
  }

  lemma CallSetThreads(s: State, t: nat, ev: Ev)
    requires t < |s.pcs| && ev.CallSet? && CallEnabled(s, t, ev) && InForce(s, ev)
    requires Privates(s) && Client(s) && Deliveries(s)
    ensures Privates(Call(s, t, ev)) && Client(Call(s, t, ev)) && Deliveries(Call(s, t, ev))
  {
  }

  lemma CallCompleteThreads(s: State, t: nat, ev: Ev)
    requires t < |s.pcs| && ev.CallComplete? && CallEnabled(s, t, ev) && InForce(s, ev)
    requires Privates(s) && Client(s) && Deliveries(s)
    ensures Privates(Call(s, t, ev)) && Client(Call(s, t, ev)) && Deliveries(Call(s, t, ev))
  {
  }

  lemma CallReleaseThreads(s: State, t: nat, ev: Ev)
    requires t < |s.pcs| && ev.CallRelease? && CallEnabled(s, t, ev)
    requires Privates(s) && Client(s) && Deliveries(s) && Files(s)
    ensures Privates(Call(s, t, ev)) && Client(Call(s, t, ev)) && Deliveries(Call(s, t, ev))
  {
  }

  lemma EndSessionThreads(s: State, t: nat, ev: Ev)
    requires t < |s.pcs| && ev.EndSession? && CallEnabled(s, t, ev)
    requires Privates(s) && Client(s) && Deliveries(s)
    ensures Privates(Call(s, t, ev)) && Client(Call(s, t, ev)) && Deliveries(Call(s, t, ev))
  {
  }

  lemma CallPassive(s: State, t: nat, ev: Ev)
    requires t < |s.pcs| && CallEnabled(s, t, ev) && Local(s, t) && InForce(s, ev)
    requires ev.Open? || ev.CallHeader? || ev.CallData? || ev.CallPoll?
    ensures Passive(s, t, Call(s, t, ev))
  {
  }

  // ---- Every step ---------------------------------------------------------------------

  lemma LocalHolds(s: State, t: nat)
    requires Identity(s) && t < |s.pcs|
    ensures Local(s, t)
  {
  }

  lemma DlIdentity(s: State, t: nat, f: nat, m: DlPc)
    requires t < |s.pcs| && s.pcs[t] == Delivering(f, m) && KernelEnabled(s, t, true)
    requires Locks(s) && Identity(s)
    ensures Identity(DlStep(s, t, f, m))
  {
    LocalHolds(s, t);
    match m
    case DlMove(a, b) =>
      MoveLists(s, t, f, a, b); MoveBios(s, t, f, a, b);
      MovePrivates(s, t, f, a, b); MoveClient(s, t, f, a, b); MoveDeliveries(s, t, f, a, b);
    case DlUnlock(a, b) =>
      HandOverPrivates(s, t, f, a, b); HandOverClient(s, t, f, a, b); HandOverDeliveries(s, t, f, a, b);
    case _ =>
      DlPassive(s, t, f, m); PassiveKeeps(s, t, DlStep(s, t, f, m));
  }

  lemma EnIdentity(s: State, t: nat, f: nat, m: EnPc)
    requires t < |s.pcs| && s.pcs[t] == Ending(f, m) && KernelEnabled(s, t, true)
    requires Locks(s) && Identity(s)
    ensures Identity(EnStep(s, t, f, m))
  {
    LocalHolds(s, t);
    match m
    case EnEnd(e) =>
      EndBioEntries(s, t, f, e);
      EndBioPrivates(s, t, f, e); EndBioClient(s, t, f, e); EndBioDeliveries(s, t, f, e);
    case EnUnlink(e) =>
      DetachEntries(s, t, f, e);
      DetachPrivates(s, t, f, e); DetachClient(s, t, f, e); DetachDeliveries(s, t, f, e);
    case EnFree(e) =>
      FreeEntries(s, t, f, e);
      FreePrivates(s, t, f, e); FreeClient(s, t, f, e); FreeDeliveries(s, t, f, e);
    case _ =>
      EnPassive(s, t, f, m); PassiveKeeps(s, t, EnStep(s, t, f, m));
  }

  lemma MrIdentity(s: State, t: nat, d: Dir, m: MrPc)
    requires t < |s.pcs| && s.pcs[t] == Submitting(d, m) && KernelEnabled(s, t, true)
    requires Locks(s) && Files(s) && Identity(s)
    ensures Identity(MrStep(s, t, d, m))
  {
    LocalHolds(s, t);
    if m.MrAdd? {
      EnqueueEntries(s, t, d, m.a);
      EnqueuePrivates(s, t, d, m.a); EnqueueClient(s, t, d, m.a); EnqueueDeliveries(s, t, d, m.a);
    } else {
      MrPassive(s, t, d, m); PassiveKeeps(s, t, MrStep(s, t, d, m));
    }
  }

  lemma SetIdentity(s: State, t: nat, f: nat, m: SetPc)
    requires t < |s.pcs| && s.pcs[t] == Setting(f, m) && KernelEnabled(s, t, true)
    requires Locks(s) && Files(s) && Identity(s)
    ensures Identity(SetStep(s, t, f, m))
  {
    LocalHolds(s, t);
    match m {
      case SetLock(a) => SetPassive(s, t, f, m); PassiveKeeps(s, t, SetStep(s, t, f, m));
      case SetStore(a) => StoreThreads(s, t, f, a);
      case SetUnlock => SetReturnThreads(s, t, f);
    }
  }

  lemma RlIdentity(s: State, t: nat, f: nat, m: RlPc)
    requires t < |s.pcs| && s.pcs[t] == Releasing(f, m) && KernelEnabled(s, t, true)
    requires Locks(s) && Files(s) && Identity(s)
    ensures Identity(RlStep(s, t, f, m))
  {
    LocalHolds(s, t);
    if m.RlSplice? {
      SpliceEntries(s, t, f);
      SplicePrivates(s, t, f); SpliceClient(s, t, f); SpliceDeliveries(s, t, f);
    } else {
      RlPassive(s, t, f, m); PassiveKeeps(s, t, RlStep(s, t, f, m));
    }
  }

  lemma RdIdentity(s: State, t: nat, f: nat, m: RdPc, c: bool)
    requires t < |s.pcs| && s.pcs[t] == Reading(f, m) && KernelEnabled(s, t, c)
    requires Locks(s) && Files(s) && Identity(s)
    ensures Identity(RdStep(s, t, f, m, c))
  {
    LocalHolds(s, t);
    RdPassive(s, t, f, m, c); PassiveKeeps(s, t, RdStep(s, t, f, m, c));
  }

  lemma FtIdentity(s: State, t: nat, f: nat, e: bool, m: FtPc)
    requires t < |s.pcs| && s.pcs[t] == Fetching(f, e, m) && KernelEnabled(s, t, true)
    requires Locks(s) && Files(s) && Identity(s)
    ensures Identity(FtStep(s, t, f, e, m))
  {
    LocalHolds(s, t);
    FtPassive(s, t, f, e, m); PassiveKeeps(s, t, FtStep(s, t, f, e, m));
  }

  lemma UseIdentity(s: State, t: nat, f: nat, e: nat, c: bool)
    requires t < |s.pcs| && s.pcs[t] == Using(f, e) && KernelEnabled(s, t, c)
    requires Locks(s) && Files(s) && Identity(s)
    ensures Identity(UseStep(s, t, c))
  {
    LocalHolds(s, t);
    UsePassive(s, t, f, e, c); PassiveKeeps(s, t, UseStep(s, t, c));
  }

  lemma PlIdentity(s: State, t: nat, f: nat, m: PlPc)
    requires t < |s.pcs| && s.pcs[t] == Polling(f, m) && KernelEnabled(s, t, true)
    requires Locks(s) && Files(s) && Identity(s)
    ensures Identity(PlStep(s, t, f, m))
  {
    LocalHolds(s, t);
    PlPassive(s, t, f, m); PassiveKeeps(s, t, PlStep(s, t, f, m));
  }

  lemma CallIdentity(s: State, t: nat, ev: Ev)
    requires t < |s.pcs| && CallEnabled(s, t, ev) && InForce(s, ev)
    requires Files(s) && Identity(s)
    ensures Identity(Call(s, t, ev))
  {
    LocalHolds(s, t);
    if ev.Submit? {
      SubmitLists(s, t, ev); SubmitBios(s, t, ev);
      SubmitPrivates(s, t, ev); SubmitClient(s, t, ev); SubmitDeliveries(s, t, ev);
    } else if ev.SubmitFail? {
      SubmitFailEntries(s, t, ev); SubmitFailThreads(s, t, ev);
    } else if ev.CallSet? {
      CallSetThreads(s, t, ev);
    } else if ev.CallComplete? {
      CallCompleteThreads(s, t, ev);
    } else if ev.CallRelease? {
      CallReleaseThreads(s, t, ev);
    } else if ev.EndSession? {
      EndSessionThreads(s, t, ev);
    } else {
      CallPassive(s, t, ev); PassiveKeeps(s, t, Call(s, t, ev));
    }
  }

  lemma ClientIdentity(s: State, t: nat, c: bool)
    requires t < |s.pcs| && KernelEnabled(s, t, c) && ClientOp(s.pcs[t])
    requires Locks(s) && Files(s) && Identity(s)
    ensures Identity(Kernel(s, t, c))
  {
    match s.pcs[t]
    case Setting(f, m) => SetIdentity(s, t, f, m);
    case Fetching(f, e, m) => FtIdentity(s, t, f, e, m);
    case Ending(f, m) => EnIdentity(s, t, f, m);
    case Using(f, e) => UseIdentity(s, t, f, e, c);
  }

  lemma QueueIdentity(s: State, t: nat, c: bool)
    requires t < |s.pcs| && KernelEnabled(s, t, c) && !ClientOp(s.pcs[t])
    requires Locks(s) && Files(s) && Identity(s)
    ensures Identity(Kernel(s, t, c))
  {
    match s.pcs[t]
    case Submitting(d, m) => MrIdentity(s, t, d, m);
    case Reading(f, m) => RdIdentity(s, t, f, m, c);
    case Delivering(f, m) => DlIdentity(s, t, f, m);
    case Polling(f, m) => PlIdentity(s, t, f, m);
    case Releasing(f, m) => RlIdentity(s, t, f, m);
  }

  /** Every step of a disciplined run keeps the meaning of every address. */
  lemma IdentityStep(s: State, t: nat, ev: Ev)
    requires Locks(s) && Files(s) && Identity(s) && Enabled(s, t, ev) && InForce(s, ev)
    ensures Identity(Next(s, t, ev))
  {
    if ev.Go? {
      if ClientOp(s.pcs[t]) {
        ClientIdentity(s, t, ev.choice);
      } else {
        QueueIdentity(s, t, ev.choice);
      }
    } else {
      CallIdentity(s, t, ev);
    }
  }

  lemma {:induction false} IdentityAlways(n: nat, run: Schedule)
    requires Feasible(Start(n), run) && Disciplined(Start(n), run)
    ensures Identity(After(Start(n), run))
  {
    if run == [] {
    } else {
      var front, last := run[..|run| - 1], run[|run| - 1];
      LocksAlways(n, front);
      DisciplinedIsSingle(Start(n), front);
      FilesAlways(n, front);
      IdentityAlways(n, front);
      IdentityStep(After(Start(n), front), last.0, last.1);
    }
  }
}
