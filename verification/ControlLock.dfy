/** The control device is for one opener at a time.  An open decrements the lock and
    looks at what it got; one that loses has to put its decrement back, and until
    it has, it keeps others out too. */
module ControlLock {

  datatype Pc =
    | Out
    | Took(won: bool)      // decremented; won if that made it zero
    | Holding              // the open succeeded
    | Restoring            // about to put the decrement back

  datatype State = State(lock: int, pcs: seq<Pc>)

  datatype Event =
    | Open(t: nat)
    | Decide(t: nat)
    | Restore(t: nat)
    | Close(t: nat)

  predicate Enabled(s: State, ev: Event) {
    && ev.t < |s.pcs|
    && match ev
       case Open(t) => s.pcs[t].Out?
       case Decide(t) => s.pcs[t].Took?
       case Restore(t) => s.pcs[t].Restoring?
       case Close(t) => s.pcs[t].Holding?
  }

  function Next(s: State, ev: Event): State
    requires Enabled(s, ev)
  {
    match ev
    case Open(t) => State(s.lock - 1, s.pcs[t := Took(s.lock - 1 == 0)])
    case Decide(t) => s.(pcs := s.pcs[t := if s.pcs[t].won then Holding else Restoring])
    case Restore(t) => State(s.lock + 1, s.pcs[t := Out])
    case Close(t) => State(s.lock + 1, s.pcs[t := Out])
  }

  function Start(openers: nat): State {
    State(1, seq(openers, _ => Out))
  }

  ghost predicate Feasible(openers: nat, run: seq<Event>)
    decreases |run|, 0
  {
    run == [] ||
    (Feasible(openers, run[..|run| - 1]) && Enabled(After(openers, run[..|run| - 1]), run[|run| - 1]))
  }

  ghost function After(openers: nat, run: seq<Event>): State
    requires Feasible(openers, run)
    decreases |run|, 1
  {
    if run == [] then Start(openers) else Next(After(openers, run[..|run| - 1]), run[|run| - 1])
  }

  // ---- Counting openers ------------------------------------------------------------------------

  predicate Holds(pc: Pc) {
    pc == Holding || pc == Took(true)
  }

  predicate Owes(pc: Pc) {
    pc == Restoring || pc == Took(false)
  }

  function Holders(pcs: seq<Pc>): nat {
    if pcs == [] then 0 else (if Holds(pcs[0]) then 1 else 0) + Holders(pcs[1..])
  }

  function Owing(pcs: seq<Pc>): nat {
    if pcs == [] then 0 else (if Owes(pcs[0]) then 1 else 0) + Owing(pcs[1..])
  }

  lemma {:induction false} CountsMove(pcs: seq<Pc>, t: nat, pc: Pc)
    requires t < |pcs|
    ensures Holders(pcs[t := pc])
            == Holders(pcs) - (if Holds(pcs[t]) then 1 else 0) + (if Holds(pc) then 1 else 0)
    ensures Owing(pcs[t := pc])
            == Owing(pcs) - (if Owes(pcs[t]) then 1 else 0) + (if Owes(pc) then 1 else 0)
  {
    if t == 0 {
      assert pcs[0 := pc][1..] == pcs[1..];
    } else {
      assert pcs[t := pc][1..] == pcs[1..][t - 1 := pc];
      CountsMove(pcs[1..], t - 1, pc);
    }
  }

  lemma {:induction false} TwoHolders(pcs: seq<Pc>, i: nat, j: nat)
    requires i < j < |pcs| && Holds(pcs[i]) && Holds(pcs[j])
    ensures Holders(pcs) >= 2
  {
    CountsMove(pcs, j, Out);
    CountsMove(pcs[j := Out], i, Out);
  }

  lemma {:induction false} NobodyCounts(openers: nat)
    ensures Holders(Start(openers).pcs) == 0 && Owing(Start(openers).pcs) == 0
  {
    if openers > 0 {
      NobodyCounts(openers - 1);
      assert Start(openers).pcs[1..] == Start(openers - 1).pcs;
    }
  }

  // ---- Exclusion -------------------------------------------------------------------------------

  predicate Inv(s: State) {
    s.lock == 1 - Holders(s.pcs) - Owing(s.pcs) && Holders(s.pcs) <= 1
  }

  lemma NextKeeps(s: State, ev: Event)
    requires Inv(s) && Enabled(s, ev)
    ensures Inv(Next(s, ev))
  {
    CountsMove(s.pcs, ev.t, Next(s, ev).pcs[ev.t]);
    assert Next(s, ev).pcs == s.pcs[ev.t := Next(s, ev).pcs[ev.t]];
  }

  lemma {:induction false} Always(openers: nat, run: seq<Event>)
    requires Feasible(openers, run)
    ensures Inv(After(openers, run))
  {
    if run == [] {
      NobodyCounts(openers);
    } else {
      Always(openers, run[..|run| - 1]);
      NextKeeps(After(openers, run[..|run| - 1]), run[|run| - 1]);
    }
  }

  /** In every interleaving of any number of openers, the lock is one less the
      holders and those who still owe their decrement, and no two hold it. */
  lemma {:induction false} OneHolder(openers: nat, run: seq<Event>)
    requires Feasible(openers, run)
    ensures var s := After(openers, run);
            && s.lock == 1 - Holders(s.pcs) - Owing(s.pcs)
            && forall i, j :: 0 <= i < j < |s.pcs| ==> !(Holds(s.pcs[i]) && Holds(s.pcs[j]))
  {
    Always(openers, run);
    var s := After(openers, run);
    forall i, j | 0 <= i < j < |s.pcs| ensures !(Holds(s.pcs[i]) && Holds(s.pcs[j])) {
      if Holds(s.pcs[i]) && Holds(s.pcs[j]) {
        TwoHolders(s.pcs, i, j);
      }
    }
  }

  /** An open gets the device exactly when nobody holds it and nobody still owes a
      decrement: losers may keep each other out of a free device. */
  lemma {:induction false} OpenWinsIff(openers: nat, run: seq<Event>, t: nat)
    requires Feasible(openers, run) && Enabled(After(openers, run), Open(t))
    ensures var s := After(openers, run);
            Next(s, Open(t)).pcs[t] == Took(true) <==> Holders(s.pcs) == 0 && Owing(s.pcs) == 0
  {
    Always(openers, run);
  }

  /** After a close nobody holds the device, and the next open gets it exactly when no
      loser has still to put its decrement back. */
  lemma {:induction false} CloseFrees(openers: nat, run: seq<Event>, t: nat, u: nat)
    requires Feasible(openers, run) && Enabled(After(openers, run), Close(t))
    ensures var s, r := After(openers, run), Next(After(openers, run), Close(t));
            && r.pcs[t].Out? && Holders(r.pcs) == 0
            && (Enabled(r, Open(u)) ==> (Next(r, Open(u)).pcs[u] == Took(true) <==> Owing(s.pcs) == 0))
  {
    Always(openers, run);
    var s := After(openers, run);
    CountsMove(s.pcs, t, Out);
    NextKeeps(s, Close(t));
  }

  // ---- What becomes of an opener ---------------------------------------------------------------

  /** Openers other than the one that steps stay where they are. */
  lemma OthersStay(s: State, ev: Event, t: nat)
    requires Enabled(s, ev) && t < |s.pcs| && t != ev.t
    ensures t < |Next(s, ev).pcs| && Next(s, ev).pcs[t] == s.pcs[t]
  {
  }

  lemma Cut(run: seq<Event>, k: nat)
    requires k < |run|
    ensures var front := run[..|run| - 1]; front[..k] == run[..k] && run[k..] == front[k..] + [run[|run| - 1]]
  {
  }

  /** How many openers there are. */
  lemma {:induction false} SameOpeners(openers: nat, run: seq<Event>)
    requires Feasible(openers, run)
    ensures |After(openers, run).pcs| == openers
  {
    if run != [] {
      SameOpeners(openers, run[..|run| - 1]);
    }
  }

  /** One that found the lock free has the device until it closes it, and its open has
      succeeded once it has looked at what it got. */
  lemma {:induction false} WinnerHolds(openers: nat, run: seq<Event>, k: nat, t: nat)
    requires Feasible(openers, run) && k <= |run| && Feasible(openers, run[..k]) && t < openers
    requires |After(openers, run[..k]).pcs| == openers
    requires After(openers, run[..k]).pcs[t] == Took(true) && Close(t) !in run[k..]
    ensures |After(openers, run).pcs| == openers
    ensures After(openers, run).pcs[t] == if Decide(t) in run[k..] then Holding else Took(true)
  {
    SameOpeners(openers, run);
    if k == |run| {
      assert run[..k] == run;
    } else {
      var front, last := run[..|run| - 1], run[|run| - 1];
      Cut(run, k);
      WinnerHolds(openers, front, k, t);
      if last.t != t {
        OthersStay(After(openers, front), last, t);
      }
    }
  }

  /** One that found it taken puts its decrement back and is out, and does not have the
      device before it opens again. */
  lemma {:induction false} LoserRestores(openers: nat, run: seq<Event>, k: nat, t: nat)
    requires Feasible(openers, run) && k <= |run| && Feasible(openers, run[..k]) && t < openers
    requires |After(openers, run[..k]).pcs| == openers
    requires After(openers, run[..k]).pcs[t] == Took(false) && Open(t) !in run[k..]
    ensures |After(openers, run).pcs| == openers
    ensures After(openers, run).pcs[t]
            == if Restore(t) in run[k..] then Out else if Decide(t) in run[k..] then Restoring else Took(false)
  {
    SameOpeners(openers, run);
    if k == |run| {
      assert run[..k] == run;
    } else {
      var front, last := run[..|run| - 1], run[|run| - 1];
      Cut(run, k);
      LoserRestores(openers, front, k, t);
      if last.t != t {
        OthersStay(After(openers, front), last, t);
      }
    }
  }
}
