/** What an address means.  kmalloc may hand out any address that is not live,
    so an id a client holds could in principle come to name a later bio.  Under
    the client discipline it never does. */
module TunnelIdentity {
  import opened Common
  import opened TunnelThreads

  /** The entry a thread holds outside both lists. */
  function PrivateOf(pc: Pc): Option<nat> {
    match pc
    case Submitting(_, MrLock(a)) => Some(a)
    case Submitting(_, MrAdd(a)) => Some(a)
    case Ending(_, EnUnlock(e)) => Some(e)
    case Ending(_, EnFree(e)) => Some(e)
    case _ => None
  }

  /** The calls that work on the data-current bio. */
  predicate ClientOp(pc: Pc) {
    pc.Setting? || pc.Fetching? || pc.Using? || pc.Ending?
  }

  /** Between bio_endio and kfree. */
  predicate Finishing(pc: Pc) {
    pc.Ending? && !pc.en.EnLock? && !pc.en.EnEnd?
  }

  /** The two lists hold exactly the entries linked on them, once each. */
  ghost predicate Lists(s: State) {
    && Distinct(s.incoming) && Distinct(s.pending)
    && (forall a :: a in s.incoming <==> a in s.heap && s.heap[a].place.OnIncoming?)
    && (forall a :: a in s.pending <==> a in s.heap && s.heap[a].place.OnPending?)
  }

  /** Every submitted bio is ended or has the one entry `home` names; an entry's
      bio is ended exactly when it is marked done; no bio is ended twice. */
  ghost predicate Bios(s: State) {
    && (forall a :: a in s.heap ==> s.heap[a].bio in s.home && s.home[s.heap[a].bio] == a)
    && (forall b :: b in s.home ==>
          b < s.submitted && s.home[b] in s.heap && s.heap[s.home[b]].bio == b)
    && (forall b: nat :: b < s.submitted ==> b in s.home || b in s.ended)
    && (forall a :: a in s.heap ==> (s.heap[a].done <==> s.heap[a].bio in s.ended))
    && (forall b :: b in s.ended ==> b < s.submitted)
    && Distinct(s.ended)
  }

  /** An entry off both lists is held by one thread, and by no other. */
  ghost predicate Privates(s: State) {
    && (forall t :: 0 <= t < |s.pcs| && PrivateOf(s.pcs[t]).Some? ==>
          PrivateOf(s.pcs[t]).value in s.heap
          && s.heap[PrivateOf(s.pcs[t]).value].place == Private(t)
          && (s.pcs[t].Submitting? ==> s.heap[PrivateOf(s.pcs[t]).value].dir == s.pcs[t].d))
    && (forall a :: a in s.heap && s.heap[a].place.Private? ==>
          s.heap[a].place.owner < |s.pcs| && PrivateOf(s.pcs[s.heap[a].place.owner]) == Some(a))
  }

  /** Address a is an un-ended entry of bio b, on one of the lists. */
  predicate Carries(s: State, a: nat, b: nat) {
    a in s.heap && !s.heap[a].place.Private? && s.heap[a].bio == b && !s.heap[a].done
  }

  /** Address a is a pending, un-ended entry of bio b. */
  predicate Awaits(s: State, a: nat, b: nat) {
    Carries(s, a, b) && s.heap[a].place.OnPending?
  }

  /** How the session's id, cursor and entry stand at each point of its thread.  Inside
      the calls that work on the current bio, the id is in force. */
  predicate SessionPc(s: State, pc: Pc)
    requires s.session.Session?
  {
    var a, b := s.session.a, s.session.b;
    var held := a in s.owned && s.owned[a] == b;
    var force := held && a !in s.lapsed;
    var taken := a !in s.owned && Awaits(s, a, b);
    match pc
    case Setting(_, k) => force && !s.session.isSet && if k.SetUnlock? then s.current == a else k.a == a
    case Fetching(_, ending, u) =>
      s.session.isSet && s.current == a && (u.FtUnlock? ==> u.e == a) && if ending then taken else force
    case Using(_, e) => s.session.isSet && s.current == a && e == a && force
    case Ending(_, c) =>
      && s.session.isSet && s.current == a && c.e == a
      && if c.EnLock? || c.EnEnd? then taken
         else a !in s.owned && a in s.heap && s.heap[a].bio == b && s.heap[a].done && !s.heap[a].place.OnIncoming?
              && (c.EnUncount? ==> c.d == s.heap[a].dir)
              && (c.EnUncount? || c.EnUnlink? ==> s.heap[a].place.OnPending?)
    case _ => s.session.isSet && s.current == a && held
  }

  /** What the client knows is true, and one thread works on the current bio. */
  ghost predicate Client(s: State) {
    && (forall a :: a in s.owned ==>
          Carries(s, a, s.owned[a]) && (a in s.lapsed || s.heap[a].place.OnPending?))
    && (forall t :: 0 <= t < |s.pcs| && ClientOp(s.pcs[t]) ==> HoldsSession(s, t))
    && (s.session.Session? ==> s.session.t < |s.pcs| && SessionPc(s, s.pcs[s.session.t]))
    && (forall a :: a in s.heap && s.heap[a].done ==>
          s.session.Session? && s.session.a == a && s.session.t < |s.pcs|
          && Finishing(s.pcs[s.session.t]))
  }

  /** A header read holds the head of incoming until it has moved it; then no one
      uses the moved entry until the read returns. */
  predicate DeliveryOk(s: State, r: DlPc) {
    match r
    case DlFill(a) => s.incoming != [] && s.incoming[0] == a
    case DlLock(a, b) => s.incoming != [] && s.incoming[0] == a && a in s.heap && s.heap[a].bio == b
    case DlMove(a, b) => s.incoming != [] && s.incoming[0] == a && a in s.heap && s.heap[a].bio == b
    case DlUnlockPe(a, b) => Awaits(s, a, b) && Unused(s, a)
    case DlUnlock(a, b) => Awaits(s, a, b) && Unused(s, a)
  }

  /** The client has lost address a in a close, or does not know it. */
  predicate Unused(s: State, a: nat) {
    (a in s.owned ==> a in s.lapsed) && (s.session.Session? && s.session.a == a ==> a in s.owned)
  }

  ghost predicate Deliveries(s: State) {
    forall t :: 0 <= t < |s.pcs| && s.pcs[t].Delivering? ==> DeliveryOk(s, s.pcs[t].dl)
  }

  ghost predicate Identity(s: State) {
    Lists(s) && Bios(s) && Privates(s) && Client(s) && Deliveries(s)
  }

  // ---- Steps that move no entry and tell the client nothing -------------------------

  ghost predicate Passive(s: State, t: nat, r: State) {
    && t < |s.pcs| == |r.pcs| && r.pcs == s.pcs[t := r.pcs[t]]
    && r.heap == s.heap && r.incoming == s.incoming && r.pending == s.pending
    && r.submitted == s.submitted && r.ended == s.ended && r.home == s.home
    && r.current == s.current && r.owned == s.owned && r.lapsed == s.lapsed && r.session == s.session
    && PrivateOf(r.pcs[t]) == PrivateOf(s.pcs[t])
    && (r.pcs[t].Submitting? ==> s.pcs[t].Submitting? && r.pcs[t].d == s.pcs[t].d)
    && (ClientOp(r.pcs[t]) ==> HoldsSession(s, t))
    && (HoldsSession(s, t) ==> SessionPc(s, r.pcs[t]))
    && (Finishing(s.pcs[t]) ==> Finishing(r.pcs[t]))
    && (r.pcs[t].Delivering? ==> DeliveryOk(s, r.pcs[t].dl))
  }

  lemma PassiveKeepsPrivates(s: State, t: nat, r: State)
    requires Privates(s) && Passive(s, t, r)
    ensures Privates(r)
  {
  }

  lemma PassiveKeepsClient(s: State, t: nat, r: State)
    requires Client(s) && Passive(s, t, r)
    ensures Client(r)
  {
    assert forall u :: 0 <= u < |s.pcs| && u != t ==> r.pcs[u] == s.pcs[u];
  }

  lemma PassiveKeepsDeliveries(s: State, t: nat, r: State)
    requires Deliveries(s) && Passive(s, t, r)
    ensures Deliveries(r)
  {
  }

  lemma PassiveKeeps(s: State, t: nat, r: State)
    requires Identity(s) && Passive(s, t, r)
    ensures Identity(r)
  {
    PassiveKeepsPrivates(s, t, r);
    PassiveKeepsClient(s, t, r);
    PassiveKeepsDeliveries(s, t, r);
  }

  /** What the invariants say about one thread. */
  predicate Local(s: State, t: nat)
    requires t < |s.pcs|
  {
    && (ClientOp(s.pcs[t]) ==> HoldsSession(s, t))
    && (HoldsSession(s, t) ==> SessionPc(s, s.pcs[t]))
    && (s.pcs[t].Delivering? ==> DeliveryOk(s, s.pcs[t].dl))
  }

  lemma MrPassive(s: State, t: nat, d: Dir, m: MrPc)
    requires t < |s.pcs| && s.pcs[t] == Submitting(d, m) && KernelEnabled(s, t, true)
    requires Local(s, t) && !m.MrAdd?
    ensures Passive(s, t, MrStep(s, t, d, m))
  {
  }

  /** Seeing the list non-empty chooses its head. */
  lemma RdCheckPassive(s: State, t: nat, f: nat)
    requires t < |s.pcs| && s.pcs[t] == Reading(f, RdCheck) && Local(s, t)
    ensures Passive(s, t, RdStep(s, t, f, RdCheck, true)) && Passive(s, t, RdStep(s, t, f, RdCheck, false))
  {
  }

  lemma RdPassive(s: State, t: nat, f: nat, m: RdPc, c: bool)
    requires t < |s.pcs| && s.pcs[t] == Reading(f, m) && KernelEnabled(s, t, c)
    requires Local(s, t)
    ensures Passive(s, t, RdStep(s, t, f, m, c))
  {
    if m.RdCheck? {
      RdCheckPassive(s, t, f);
    }
  }

  lemma DlPassive(s: State, t: nat, f: nat, m: DlPc)
    requires t < |s.pcs| && s.pcs[t] == Delivering(f, m) && KernelEnabled(s, t, true)
    requires Local(s, t) && !m.DlMove? && !m.DlUnlock?
    ensures Passive(s, t, DlStep(s, t, f, m))
  {
  }

  lemma SetPassive(s: State, t: nat, f: nat, m: SetPc)
    requires t < |s.pcs| && s.pcs[t] == Setting(f, m) && KernelEnabled(s, t, true)
    requires Local(s, t) && m.SetLock?
    ensures Passive(s, t, SetStep(s, t, f, m))
  {
  }

  lemma FtPassive(s: State, t: nat, f: nat, e: bool, m: FtPc)
    requires t < |s.pcs| && s.pcs[t] == Fetching(f, e, m) && KernelEnabled(s, t, true)
    requires Local(s, t)
    ensures Passive(s, t, FtStep(s, t, f, e, m))
  {
  }

  lemma EnPassive(s: State, t: nat, f: nat, m: EnPc)
    requires t < |s.pcs| && s.pcs[t] == Ending(f, m) && KernelEnabled(s, t, true)
    requires Local(s, t) && !m.EnEnd? && !m.EnUnlink? && !m.EnFree?
    ensures Passive(s, t, EnStep(s, t, f, m))
  {
  }

  lemma UsePassive(s: State, t: nat, f: nat, e: nat, c: bool)
    requires t < |s.pcs| && s.pcs[t] == Using(f, e) && KernelEnabled(s, t, c)
    requires Local(s, t)
    ensures Passive(s, t, UseStep(s, t, c))
  {
  }

  lemma PlPassive(s: State, t: nat, f: nat, m: PlPc)
    requires t < |s.pcs| && s.pcs[t] == Polling(f, m) && KernelEnabled(s, t, true)
    requires Local(s, t)
    ensures Passive(s, t, PlStep(s, t, f, m))
  {
  }

  lemma RlPassive(s: State, t: nat, f: nat, m: RlPc)
    requires t < |s.pcs| && s.pcs[t] == Releasing(f, m) && KernelEnabled(s, t, true)
    requires Local(s, t) && !m.RlSplice?
    ensures Passive(s, t, RlStep(s, t, f, m))
  {
  }
}
