/** The tunnel operations as any number of threads run them: one program
    counter per thread, the two list mutexes, the wait queue, the in-flight
    counters.  Each step below is one access to shared state.

    An event names the thread's next step together with every choice the
    environment makes in it (the address kmalloc returns, whether a signal is
    pending, which call a client makes next), so a run is a sequence of
    (thread, event) pairs and is otherwise deterministic. */
module TunnelThreads {
  import opened Common

  /** Where an entry's list links are. */
  datatype Place = Private(owner: nat) | OnIncoming | OnPending

  /** A bdtun_bio_list_entry.  `place` follows its links; `done` records, for the
      proofs only, that its bio has been ended. */
  datatype Entry = Entry(bio: nat, dir: Dir, place: Place, done: bool)

  // One datatype of program points per driver function.

  /** bdtun_make_request */
  datatype MrPc = MrLock(a: nat) | MrAdd(a: nat) | MrUnlock | MrWake | MrCount

  /** bdtunch_read, header branch, until the list is seen non-empty */
  datatype RdPc = RdPrepare | RdLock | RdCheck | RdEmptyUnlock | RdSchedule | RdAsleep | RdAwake

  /** bdtunch_read, header branch, with entry a chosen */
  datatype DlPc =
    | DlFill(a: nat) | DlLock(a: nat, b: nat) | DlMove(a: nat, b: nat)
    | DlUnlockPe(a: nat, b: nat) | DlUnlock(a: nat, b: nat)

  /** bdtunch_write, id branch */
  datatype SetPc = SetLock(a: nat) | SetStore(a: nat) | SetUnlock

  /** Fetching the cursor, which every payload transfer, mmap and completion does first */
  datatype FtPc = FtLock | FtLoad | FtUnlock(e: nat)

  /** bdtunch_write, completion byte, with entry e fetched */
  datatype EnPc =
    | EnLock(e: nat) | EnEnd(e: nat) | EnUncount(e: nat, d: Dir) | EnUnlink(e: nat)
    | EnUnlock(e: nat) | EnFree(e: nat)

  /** bdtunch_poll */
  datatype PlPc = PlLock | PlCheck | PlUnlock(readable: bool)

  /** bdtunch_release */
  datatype RlPc = RlLock | RlLockPe | RlSplice | RlUnlockPe | RlUnlock

  datatype Pc =
    | Idle
    | Submitting(d: Dir, mr: MrPc)
    | Reading(f: nat, rd: RdPc)
    | Delivering(f: nat, dl: DlPc)
    | Setting(f: nat, st: SetPc)
    | Fetching(f: nat, ending: bool, ft: FtPc)
    | Ending(f: nat, en: EnPc)
    | Using(f: nat, e: nat)
    | Polling(f: nat, pl: PlPc)
    | Releasing(f: nat, rl: RlPc)

  datatype Ev =
    // calls, made by an idle thread
    | Submit(d: Dir, a: nat)      // make_request; kmalloc returns a
    | SubmitFail(d: Dir)          // make_request; kmalloc returns NULL
    | Open(f: nat)
    | CallHeader(f: nat)
    | CallSet(f: nat, a: nat)
    | CallData(f: nat)
    | CallComplete(f: nat)
    | CallPoll(f: nat)
    | CallRelease(f: nat)
    | EndSession                  // the client puts a request aside
    // the next step inside a call
    | Go(choice: bool)

  /** The client's own lock around set-current ... complete: which thread holds
      it, the id it took, the bio whose header carried that id, and whether its
      set-current call has returned. */
  datatype Session = NoSession | Session(t: nat, a: nat, b: nat, isSet: bool)

  datatype State = State(
    pcs: seq<Pc>,
    heap: map<nat, Entry>,        // live entries by address
    incoming: seq<nat>,
    pending: seq<nat>,
    current: nat,                 // data_current_bio
    inLock: Option<nat>,
    peLock: Option<nat>,
    armed: set<nat>,              // on the wait queue, task state interruptible
    inRead: int,                  // part0 in-flight, READ
    inWrite: int,                 // part0 in-flight, WRITE
    open: set<nat>,               // tunnel files
    closing: set<nat>,            // those inside bdtunch_release
    // the client's knowledge: ids delivered and not yet completed, and those of them
    // that have not been delivered again since the tunnel was last closed
    owned: map<nat, nat>,
    lapsed: set<nat>,
    session: Session,
    // history
    submitted: nat,
    ended: seq<nat>,
    home: map<nat, nat>)          // address of each bio that still has an entry

  function Start(n: nat): State {
    State(seq(n, i => Idle), map[], [], [], 0, None, None, {}, 0, 0, {}, {},
          map[], {}, NoSession, 0, [], map[])
  }

  function Inflight(s: State, d: Dir): int {
    if d == READ then s.inRead else s.inWrite
  }

  function Bump(s: State, d: Dir, k: int): State {
    s.(inRead := if d == READ then s.inRead + k else s.inRead,
       inWrite := if d == READ then s.inWrite else s.inWrite + k)
  }

  /** The tunnel file a call runs on; make_request runs on none. */
  function FileOf(pc: Pc): Option<nat> {
    if pc.Idle? || pc.Submitting? then None else Some(pc.f)
  }

  /** A file a call may be made on: open, and not already being closed. */
  predicate Usable(s: State, f: nat) {
    f in s.open && f !in s.closing
  }

  predicate HoldsSession(s: State, t: nat) {
    s.session.Session? && s.session.t == t
  }

  /** When an idle thread may make a call.  The conditions on `session` and
      `owned` are what the library demands of its client: set-current and
      complete are serialised, and an id is used only between its delivery and
      its completion.  Ids, the session and the cursor survive a close; whether they
      may be used after it is up to InForce, below.  A file is released only when no
      call on it is running, which is the VFS's rule for the last reference. */
  predicate CallEnabled(s: State, t: nat, ev: Ev)
    requires t < |s.pcs|
  {
    s.pcs[t].Idle? &&
    match ev
    case Submit(d, a) => a !in s.heap
    case SubmitFail(d) => true
    case Open(f) => f !in s.open
    case CallHeader(f) => Usable(s, f)
    case CallSet(f, a) => Usable(s, f) && s.session.NoSession? && a in s.owned
    case CallData(f) => Usable(s, f) && HoldsSession(s, t) && s.session.isSet
    case CallComplete(f) => Usable(s, f) && HoldsSession(s, t) && s.session.isSet
    case CallPoll(f) => Usable(s, f)
    case CallRelease(f) =>
      Usable(s, f) && forall u :: 0 <= u < |s.pcs| ==> FileOf(s.pcs[u]) != Some(f)
    case EndSession => HoldsSession(s, t) && s.session.isSet
    case Go(_) => false
  }

  function Goto(s: State, t: nat, pc: Pc): State
    requires t < |s.pcs|
  {
    s.(pcs := s.pcs[t := pc])
  }

  function Call(s: State, t: nat, ev: Ev): State
    requires t < |s.pcs| && CallEnabled(s, t, ev)
  {
    match ev
    case Submit(d, a) =>
      Goto(s, t, Submitting(d, MrLock(a))).(
        heap := s.heap[a := Entry(s.submitted, d, Private(t), false)],
        home := s.home[s.submitted := a],
        submitted := s.submitted + 1)
    case SubmitFail(d) => s.(ended := s.ended + [s.submitted], submitted := s.submitted + 1)
    case Open(f) => s.(open := s.open + {f})
    case CallHeader(f) => Goto(s, t, Reading(f, RdPrepare))
    case CallSet(f, a) => Goto(s, t, Setting(f, SetLock(a))).(session := Session(t, a, s.owned[a], false))
    case CallData(f) => Goto(s, t, Fetching(f, false, FtLock))
    case CallComplete(f) =>
      Goto(s, t, Fetching(f, true, FtLock)).(owned := s.owned - {s.session.a}, lapsed := s.lapsed - {s.session.a})
    case CallPoll(f) => Goto(s, t, Polling(f, PlLock))
    case CallRelease(f) =>
      Goto(s, t, Releasing(f, RlLock)).(closing := s.closing + {f}, lapsed := s.owned.Keys)
    case EndSession => s.(session := NoSession)
  }

  // Lock and dereference conditions of the steps inside a call.

  predicate WaitsIn(pc: Pc) {
    match pc
    case Submitting(_, m) => m.MrLock?
    case Reading(_, r) => r.RdLock?
    case Polling(_, p) => p.PlLock?
    case Releasing(_, r) => r.RlLock?
    case _ => false
  }

  predicate WaitsPe(pc: Pc) {
    match pc
    case Delivering(_, r) => r.DlLock?
    case Setting(_, k) => k.SetLock?
    case Fetching(_, _, u) => u.FtLock?
    case Ending(_, c) => c.EnLock?
    case Releasing(_, r) => r.RlLockPe?
    case _ => false
  }

  predicate HoldsIn(pc: Pc) {
    match pc
    case Submitting(_, m) => m.MrAdd? || m.MrUnlock?
    case Reading(_, r) => r.RdCheck? || r.RdEmptyUnlock?
    case Delivering(_, _) => true
    case Polling(_, p) => !p.PlLock?
    case Releasing(_, r) => !r.RlLock?
    case _ => false
  }

  predicate HoldsPe(pc: Pc) {
    match pc
    case Delivering(_, r) => r.DlMove? || r.DlUnlockPe?
    case Setting(_, k) => !k.SetLock?
    case Fetching(_, _, u) => !u.FtLock?
    case Ending(_, c) => !c.EnLock? && !c.EnFree?
    case Releasing(_, r) => r.RlSplice? || r.RlUnlockPe?
    case _ => false
  }

  /** The entry a step is about to dereference, relink or free. */
  function Touches(pc: Pc): Option<nat> {
    match pc
    case Submitting(_, MrAdd(a)) => Some(a)
    case Delivering(_, DlFill(a)) => Some(a)
    case Delivering(_, DlMove(a, _)) => Some(a)
    case Ending(_, c) => if c.EnLock? || c.EnUnlock? then None else Some(c.e)
    case Using(_, e) => Some(e)
    case _ => None
  }

  /** Asleep in schedule(), with nothing yet to wake it. */
  predicate Sleeping(s: State, t: nat)
    requires t < |s.pcs|
  {
    s.pcs[t].Reading? && s.pcs[t].rd.RdAsleep? && t in s.armed
  }

  /** A kernel step needs its mutex free, the entry it touches alive, and a
      sleeper woken or signalled; nothing else blocks. */
  predicate KernelEnabled(s: State, t: nat, choice: bool)
    requires t < |s.pcs|
  {
    var pc := s.pcs[t];
    && !pc.Idle?
    && (WaitsIn(pc) ==> s.inLock.None?)
    && (WaitsPe(pc) ==> s.peLock.None?)
    && (Touches(pc).Some? ==> Touches(pc).value in s.heap)
    && (Sleeping(s, t) ==> choice)
  }

  /** list_del on an entry: it leaves whichever list carries it. */
  function Unlink(s: State, e: nat, to: Place): State
    requires e in s.heap
  {
    s.(incoming := Without(s.incoming, e), pending := Without(s.pending, e),
       heap := s.heap[e := s.heap[e].(place := to)])
  }

  /** Every moved entry's links are now on incoming. */
  function Relinked(heap: map<nat, Entry>, moved: seq<nat>): map<nat, Entry> {
    map a | a in heap :: if a in moved then heap[a].(place := OnIncoming) else heap[a]
  }

  function MrStep(s: State, t: nat, d: Dir, m: MrPc): State
    requires t < |s.pcs|
    requires m.MrAdd? ==> m.a in s.heap
  {
    match m
    case MrLock(a) => Goto(s, t, Submitting(d, MrAdd(a))).(inLock := Some(t))
    case MrAdd(a) =>
      Goto(s, t, Submitting(d, MrUnlock)).(
        incoming := s.incoming + [a], heap := s.heap[a := s.heap[a].(place := OnIncoming)])
    case MrUnlock => Goto(s, t, Submitting(d, MrWake)).(inLock := None)
    case MrWake => Goto(s, t, Submitting(d, MrCount)).(armed := {})
    case MrCount => Bump(Goto(s, t, Idle), d, 1)
  }

  /** Taking a contended mutex leaves the task running again: that is the choice
      at RdLock.  The choice at RdAwake is whether a signal is pending. */
  function RdStep(s: State, t: nat, f: nat, r: RdPc, choice: bool): State
    requires t < |s.pcs|
  {
    match r
    case RdPrepare => Goto(s, t, Reading(f, RdLock)).(armed := s.armed + {t})
    case RdLock =>
      Goto(s, t, Reading(f, RdCheck)).(
        inLock := Some(t), armed := if choice then s.armed - {t} else s.armed)
    case RdCheck =>
      if s.incoming == [] then Goto(s, t, Reading(f, RdEmptyUnlock))
      else Goto(s, t, Delivering(f, DlFill(s.incoming[0]))).(armed := s.armed - {t})
    case RdEmptyUnlock => Goto(s, t, Reading(f, RdSchedule)).(inLock := None)
    case RdSchedule => Goto(s, t, Reading(f, if t in s.armed then RdAsleep else RdAwake))
    case RdAsleep => Goto(s, t, Reading(f, RdAwake)).(armed := s.armed - {t})
    case RdAwake =>
      Goto(s, t, if choice then Idle else Reading(f, RdPrepare)).(armed := s.armed - {t})
  }

  function DlStep(s: State, t: nat, f: nat, r: DlPc): State
    requires t < |s.pcs|
    requires r.DlFill? || r.DlMove? ==> r.a in s.heap
  {
    match r
    case DlFill(a) => Goto(s, t, Delivering(f, DlLock(a, s.heap[a].bio)))
    case DlLock(a, b) => Goto(s, t, Delivering(f, DlMove(a, b))).(peLock := Some(t))
    case DlMove(a, b) =>
      var u := Unlink(s, a, OnPending);
      Goto(u, t, Delivering(f, DlUnlockPe(a, b))).(pending := u.pending + [a])
    case DlUnlockPe(a, b) => Goto(s, t, Delivering(f, DlUnlock(a, b))).(peLock := None)
    case DlUnlock(a, b) => Goto(s, t, Idle).(inLock := None, owned := s.owned[a := b], lapsed := s.lapsed - {a})
  }

  function SetStep(s: State, t: nat, f: nat, k: SetPc): State
    requires t < |s.pcs|
  {
    match k
    case SetLock(a) => Goto(s, t, Setting(f, SetStore(a))).(peLock := Some(t))
    case SetStore(a) => Goto(s, t, Setting(f, SetUnlock)).(current := a)
    case SetUnlock =>
      Goto(s, t, Idle).(
        peLock := None,
        session := if s.session.Session? then s.session.(isSet := true) else NoSession)
  }

  function FtStep(s: State, t: nat, f: nat, ending: bool, u: FtPc): State
    requires t < |s.pcs|
  {
    match u
    case FtLock => Goto(s, t, Fetching(f, ending, FtLoad)).(peLock := Some(t))
    case FtLoad => Goto(s, t, Fetching(f, ending, FtUnlock(s.current)))
    case FtUnlock(e) =>
      Goto(s, t, if ending then Ending(f, EnLock(e)) else Using(f, e)).(peLock := None)
  }

  function EnStep(s: State, t: nat, f: nat, c: EnPc): State
    requires t < |s.pcs|
    requires !c.EnLock? && !c.EnUnlock? ==> c.e in s.heap
  {
    match c
    case EnLock(e) => Goto(s, t, Ending(f, EnEnd(e))).(peLock := Some(t))
    case EnEnd(e) =>
      Goto(s, t, Ending(f, EnUncount(e, s.heap[e].dir))).(
        ended := s.ended + [s.heap[e].bio], heap := s.heap[e := s.heap[e].(done := true)])
    case EnUncount(e, d) => Bump(Goto(s, t, Ending(f, EnUnlink(e))), s.heap[e].dir, -1)
    case EnUnlink(e) => Goto(Unlink(s, e, Private(t)), t, Ending(f, EnUnlock(e)))
    case EnUnlock(e) => Goto(s, t, Ending(f, EnFree(e))).(peLock := None)
    case EnFree(e) =>
      Goto(s, t, Idle).(
        heap := s.heap - {e}, home := s.home - {s.heap[e].bio}, session := NoSession)
  }

  /** A client may use the data-current bio's memory as often as it likes. */
  function UseStep(s: State, t: nat, choice: bool): State
    requires t < |s.pcs|
  {
    if choice then s else Goto(s, t, Idle)
  }

  function PlStep(s: State, t: nat, f: nat, p: PlPc): State
    requires t < |s.pcs|
  {
    match p
    case PlLock => Goto(s, t, Polling(f, PlCheck)).(inLock := Some(t))
    case PlCheck => Goto(s, t, Polling(f, PlUnlock(s.incoming != [])))
    case PlUnlock(_) => Goto(s, t, Idle).(inLock := None)
  }

  function RlStep(s: State, t: nat, f: nat, r: RlPc): State
    requires t < |s.pcs|
  {
    match r
    case RlLock => Goto(s, t, Releasing(f, RlLockPe)).(inLock := Some(t))
    case RlLockPe => Goto(s, t, Releasing(f, RlSplice)).(peLock := Some(t))
    case RlSplice =>
      Goto(s, t, Releasing(f, RlUnlockPe)).(
        incoming := s.incoming + s.pending, pending := [], heap := Relinked(s.heap, s.pending))
    case RlUnlockPe => Goto(s, t, Releasing(f, RlUnlock)).(peLock := None)
    case RlUnlock =>
      Goto(s, t, Idle).(inLock := None, open := s.open - {f}, closing := s.closing - {f})
  }

  function Kernel(s: State, t: nat, choice: bool): State
    requires t < |s.pcs| && KernelEnabled(s, t, choice)
  {
    match s.pcs[t]
    case Submitting(d, m) => MrStep(s, t, d, m)
    case Reading(f, r) => RdStep(s, t, f, r, choice)
    case Delivering(f, r) => DlStep(s, t, f, r)
    case Setting(f, k) => SetStep(s, t, f, k)
    case Fetching(f, ending, u) => FtStep(s, t, f, ending, u)
    case Ending(f, c) => EnStep(s, t, f, c)
    case Using(f, e) => UseStep(s, t, choice)
    case Polling(f, p) => PlStep(s, t, f, p)
    case Releasing(f, r) => RlStep(s, t, f, r)
  }

  predicate Enabled(s: State, t: nat, ev: Ev) {
    t < |s.pcs| && if ev.Go? then KernelEnabled(s, t, ev.choice) else CallEnabled(s, t, ev)
  }

  function Next(s: State, t: nat, ev: Ev): State
    requires Enabled(s, t, ev)
  {
    if ev.Go? then Kernel(s, t, ev.choice) else Call(s, t, ev)
  }

  /** One tunnel file open at a time. */
  predicate OneFile(s: State, ev: Ev) {
    ev.Open? ==> s.open == {}
  }

  /** An id is in force from its delivery until the tunnel is next closed, and after that
      not before its bio is delivered again.  Only ids in force are made current,
      transferred or completed. */
  predicate InForce(s: State, ev: Ev) {
    match ev
    case CallSet(_, a) => a !in s.lapsed
    case CallData(_) => s.session.Session? ==> s.session.a !in s.lapsed
    case CallComplete(_) => s.session.Session? ==> s.session.a !in s.lapsed
    case _ => true
  }

  // ---- Runs -------------------------------------------------------------------------

  type Schedule = seq<(nat, Ev)>

  /** A schedule in which every step is enabled. */
  ghost predicate Feasible(s: State, run: Schedule)
    decreases |run|, 0
  {
    run == [] ||
    (var front, last := run[..|run| - 1], run[|run| - 1];
     Feasible(s, front) && Enabled(After(s, front), last.0, last.1))
  }

  ghost function After(s: State, run: Schedule): State
    requires Feasible(s, run)
    decreases |run|, 1
  {
    if run == [] then s
    else
      var front, last := run[..|run| - 1], run[|run| - 1];
      Next(After(s, front), last.0, last.1)
  }

  /** A feasible schedule that opens a tunnel file only when none is open. */
  ghost predicate SingleFile(s: State, run: Schedule)
    requires Feasible(s, run)
  {
    run == [] ||
    (var front, last := run[..|run| - 1], run[|run| - 1];
     SingleFile(s, front) && OneFile(After(s, front), last.1))
  }

  /** One that moreover uses only ids in force. */
  ghost predicate Disciplined(s: State, run: Schedule)
    requires Feasible(s, run)
  {
    run == [] ||
    (var front, last := run[..|run| - 1], run[|run| - 1];
     Disciplined(s, front) && OneFile(After(s, front), last.1) && InForce(After(s, front), last.1))
  }

  lemma {:induction false} DisciplinedIsSingle(s: State, run: Schedule)
    requires Feasible(s, run) && Disciplined(s, run)
    ensures SingleFile(s, run)
  {
    if run != [] {
      DisciplinedIsSingle(s, run[..|run| - 1]);
    }
  }
}
