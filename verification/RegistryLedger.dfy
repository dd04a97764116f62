/** The registry as its commands alone describe it: a ledger of the devices in the order
    they were made, each with its sizes and the handles open on it.  Every run of the
    registry agrees with its ledger, and every command answers as the ledger says. */
module RegistryLedger {
  import opened Common
  import opened Names
  import opened Geometry
  import opened RegistrySpec

  /** A device as its users know it: sizes in bytes, the capacity in sectors, and how many
      times it is open. */
  datatype Entry = Entry(block: nat, blocks: nat, size: nat, capacity: nat, handles: int)

  datatype Ledger = Ledger(order: seq<Name>, entries: map<Name, Entry>)

  /** A block size between a sector and a page that is a power of two, and a size in whole
      blocks. */
  ghost predicate Fits(block: nat, size: nat) {
    512 <= block <= 4096 && (exists k: nat :: block == Pow2(k)) && size % block == 0
  }

  /** What the kernel answers to a create, call by call, in the order of the calls. */
  function Calls(s: Supply): seq<Result<()>> {
    [if s.mem.Some? then Ok(()) else Err(ENOMEM),
     if s.queue.Some? then Ok(()) else Err(ENOMEM),
     if s.major.Ok? then Ok(()) else Err(s.major.errno),
     if s.region.Ok? then Ok(()) else Err(s.region.errno),
     s.cdev,
     if s.node then Ok(()) else Err(ENOMEM),
     if s.disk.Some? then Ok(()) else Err(ENOMEM)]
  }

  /** The first of a sequence of calls that fails decides. */
  function FirstError(calls: seq<Result<()>>): Result<()> {
    if calls == [] then Ok(())
    else if calls[0].Err? then calls[0]
    else FirstError(calls[1..])
  }

  lemma {:induction false} FirstErrorAt(calls: seq<Result<()>>, k: nat)
    requires k <= |calls| && forall i :: 0 <= i < k ==> calls[i].Ok?
    ensures FirstError(calls) == if k == |calls| then Ok(()) else FirstError(calls[k..])
    ensures k < |calls| && calls[k].Err? ==> FirstError(calls) == calls[k]
  {
    if k == 0 {
      assert calls[0..] == calls;
    } else {
      FirstErrorAt(calls[1..], k - 1);
      assert calls[1..][k - 1..] == calls[k..];
    }
  }

  /** The create's checks in order are the search for the first call that fails. */
  lemma OutcomeIsFirstError(s: Supply)
    ensures FirstError(Calls(s)) == Outcome(s)
  {
    var c := Calls(s);
    var k := if c[0].Err? then 0 else if c[1].Err? then 1 else if c[2].Err? then 2 else if c[3].Err? then 3
             else if c[4].Err? then 4 else if c[5].Err? then 5 else if c[6].Err? then 6 else 7;
    FirstErrorAt(c, k);
  }

  lemma FitsIff(block: nat, size: nat)
    ensures Fits(block, size) <==> SizesOk(block, size)
  {
    if SizesOk(block, size) {
      var k := PowerOfAnd(block);
    }
    if Fits(block, size) {
      var k: nat :| block == Pow2(k);
      AndOfPower(k);
    }
  }

  /** What a command should answer. */
  ghost function Answer(l: Ledger, c: Command): Result<()> {
    match c
    case Create(name, block, size, s) =>
      if name in l.entries then Err(EEXIST)
      else if !Fits(block, size) then Err(EINVAL)
      else FirstError(Calls(s))
    case Resize(name, _, revalidation) => if name in l.entries then revalidation else Err(ENOENT)
    case Remove(name) =>
      if name !in l.entries then Err(ENOENT) else if l.entries[name].handles != 0 then Err(EBUSY) else Ok(())
    case Open(name, _) => if name in l.entries then Ok(()) else Err(ENOENT)
    case Close(_) => Ok(())
    case Init(_, fails) => if fails < 5 then Err(ENOMEM) else Ok(())
    case Exit => Ok(())
  }

  /** What it should do to the ledger. */
  ghost function Enter(l: Ledger, c: Command): Ledger {
    match c
    case Create(name, block, size, _) =>
      if Answer(l, c).Ok? && Fits(block, size)
      then Ledger(l.order + [name], l.entries[name := Entry(block, size / block, size, size / 512, 0)])
      else l
    case Resize(name, size, revalidation) =>
      if name !in l.entries then l
      else if revalidation.Ok?
      then l.(entries := l.entries[name := l.entries[name].(capacity := size / 512, size := size)])
      else l.(entries := l.entries[name := l.entries[name].(capacity := size / 512)])
    case Remove(name) => if Answer(l, c).Ok? then TakenOff(l, name) else l
    case Open(name, _) => if name in l.entries then Count(l, name, 1) else l
    case Close(name) => if name in l.entries then Count(l, name, -1) else l
    case Init(_, _) => l
    case Exit => l
  }

  function TakenOff(l: Ledger, name: Name): Ledger {
    Ledger(Without(l.order, name), l.entries - {name})
  }

  function Count(l: Ledger, name: Name, n: int): Ledger
    requires name in l.entries
  {
    l.(entries := l.entries[name := l.entries[name].(handles := l.entries[name].handles + n)])
  }

  ghost function LedgerOf(run: seq<Command>): Ledger {
    if run == [] then Ledger([], map[]) else Enter(LedgerOf(run[..|run| - 1]), run[|run| - 1])
  }

  /** What a command does answer. */
  function Reply(r: Reg, c: Command): Result<()> {
    match c
    case Create(name, block, size, s) => DoCreate(r, name, block, size, s).1
    case Resize(name, size, revalidation) => DoResize(r, name, size, revalidation).1
    case Remove(name) => DoRemove(r, name).1
    case Open(name, tunnel) => DoOpen(r, name, tunnel).1
    case Close(_) => Ok(())
    case Init(num, fails) => DoInit(r, num, fails).1
    case Exit => Ok(())
  }

  // ---- Agreement ---------------------------------------------------------------------------

  predicate Matches(d: Device, e: Entry) {
    && d.geo == Geo(e.block, e.blocks, e.size, e.capacity)
    && d.ucnt == e.handles
  }

  /** The same devices in the same order, of the same sizes, as often open. */
  ghost predicate Agrees(ds: seq<Device>, l: Ledger) {
    && |ds| == |l.order|
    && (forall k :: 0 <= k < |ds| ==> ds[k].name == l.order[k])
    && (forall k :: 0 <= k < |ds| ==> ds[k].name in l.entries && Matches(ds[k], l.entries[ds[k].name]))
    && (forall name :: name in l.entries ==> Named(ds, name))
  }

  lemma NamedIff(ds: seq<Device>, l: Ledger, name: Name)
    requires Agrees(ds, l)
    ensures name in l.entries <==> Named(ds, name)
    ensures name in l.entries <==> Index(ds, name) < |ds|
    ensures name in l.entries ==>
              ds[Index(ds, name)].name == name && Matches(ds[Index(ds, name)], l.entries[name])
  {
    IndexIsFirst(ds, name, Index(ds, name));
  }

  lemma AppendAgrees(ds: seq<Device>, l: Ledger, d: Device, e: Entry)
    requires Agrees(ds, l) && d.name !in l.entries && Matches(d, e)
    ensures Agrees(ds + [d], Ledger(l.order + [d.name], l.entries[d.name := e]))
  {
    var all, m := ds + [d], l.entries[d.name := e];
    forall name | name in m ensures Named(all, name) {
      if name == d.name {
        assert all[|ds|].name == name;
      } else {
        var k :| 0 <= k < |ds| && ds[k].name == name;
        assert all[k].name == name;
      }
    }
  }

  lemma UpdateAgrees(ds: seq<Device>, l: Ledger, k: nat, d: Device, e: Entry)
    requires Agrees(ds, l) && Unique(ds) && k < |ds| && d.name == ds[k].name && Matches(d, e)
    ensures Agrees(ds[k := d], l.(entries := l.entries[d.name := e]))
  {
    var all := ds[k := d];
    forall name | name in l.entries[d.name := e] ensures Named(all, name) {
      var j :| 0 <= j < |ds| && ds[j].name == name;
      assert all[j].name == name;
    }
  }

  lemma {:induction false} WithoutAt(s: seq<Name>, k: nat)
    requires Distinct(s) && k < |s|
    ensures Without(s, s[k]) == s[..k] + s[k + 1..]
    decreases |s|
  {
    if k == 0 {
      WithoutHead(s);
    } else {
      WithoutAt(s[1..], k - 1);
      assert s[1..][k - 1] == s[k];
      assert [s[0]] + (s[1..][..k - 1] + s[1..][k..]) == s[..k] + s[k + 1..];
    }
  }

  lemma StillNamed(ds: seq<Device>, k: nat, other: Name)
    requires k < |ds| && Named(ds, other) && other != ds[k].name
    ensures Named(ds[..k] + ds[k + 1..], other)
  {
    var j :| 0 <= j < |ds| && ds[j].name == other;
    assert (ds[..k] + ds[k + 1..])[if j < k then j else j - 1].name == other;
  }

  lemma RestAgrees(ds: seq<Device>, l: Ledger, k: nat)
    requires Agrees(ds, l) && Unique(ds) && k < |ds|
    ensures Agrees(ds[..k] + ds[k + 1..], Ledger(l.order[..k] + l.order[k + 1..], l.entries - {ds[k].name}))
  {
    var rest, name := ds[..k] + ds[k + 1..], ds[k].name;
    forall j | 0 <= j < |rest| ensures rest[j] == ds[if j < k then j else j + 1] && rest[j].name != name {
    }
    forall other | other in l.entries - {name} ensures Named(rest, other) {
      StillNamed(ds, k, other);
    }
  }

  lemma RemoveAgrees(ds: seq<Device>, l: Ledger, k: nat)
    requires Agrees(ds, l) && Unique(ds) && k < |ds|
    ensures Agrees(ds[..k] + ds[k + 1..], TakenOff(l, ds[k].name))
  {
    WithoutAt(l.order, k);
    RestAgrees(ds, l, k);
  }

  lemma CreateReplies(r: Reg, l: Ledger, name: Name, block: nat, size: nat, s: Supply)
    requires Agrees(r.devices, l)
    ensures DoCreate(r, name, block, size, s).1 == Answer(l, Create(name, block, size, s))
    ensures var made := name !in l.entries && SizesOk(block, size) && Outcome(s).Ok?;
            && (made <==> Answer(l, Create(name, block, size, s)).Ok?) && (made ==> Fits(block, size))
            && DoCreate(r, name, block, size, s).0.devices
               == if made then r.devices + [NewDevice(name, block, size, s)] else r.devices
  {
    NamedIff(r.devices, l, name);
    FitsIff(block, size);
    OutcomeIsFirstError(s);
  }

  lemma CreateAgrees(r: Reg, l: Ledger, c: Command)
    requires Agrees(r.devices, l) && Enabled(r, c) && c.Create?
    ensures Agrees(Apply(r, c).devices, Enter(l, c)) && Reply(r, c) == Answer(l, c)
  {
    var name, block, size, s := c.name, c.block, c.size, c.supply;
    CreateReplies(r, l, name, block, size, s);
    if Answer(l, c).Ok? {
      var d, e := NewDevice(name, block, size, s), Entry(block, size / block, size, size / 512, 0);
      AppendAgrees(r.devices, l, d, e);
      assert Enter(l, c) == Ledger(l.order + [name], l.entries[name := e]);
    } else {
      assert Enter(l, c) == l;
    }
  }

  lemma ResizeAgrees(r: Reg, l: Ledger, c: Command)
    requires Agrees(r.devices, l) && Unique(r.devices) && Enabled(r, c) && c.Resize?
    ensures Agrees(Apply(r, c).devices, Enter(l, c)) && Reply(r, c) == Answer(l, c)
  {
    NamedIff(r.devices, l, c.name);
    if c.name in l.entries {
      var k := Index(r.devices, c.name);
      var d, e, size, ok := r.devices[k], l.entries[c.name], c.size, c.revalidation.Ok?;
      var f := if ok then e.(capacity := size / 512, size := size) else e.(capacity := size / 512);
      UpdateAgrees(r.devices, l, k, d.(geo := Resized(d.geo, size, ok)), f);
    }
  }

  lemma RemovalReplies(r: Reg, l: Ledger, name: Name)
    requires Agrees(r.devices, l) && Listed(r.devices)
    ensures DoRemove(r, name).1 == Answer(l, Remove(name))
    ensures var k := Index(r.devices, name);
            if Answer(l, Remove(name)).Ok? then
              && k < |r.devices| && r.devices[k].name == name
              && DoRemove(r, name).0.devices == r.devices[..k] + r.devices[k + 1..]
            else DoRemove(r, name).0.devices == r.devices
    ensures Enter(l, Remove(name)) == if Answer(l, Remove(name)).Ok? then TakenOff(l, name) else l
  {
    NamedIff(r.devices, l, name);
  }

  lemma RemovalAgrees(r: Reg, l: Ledger, name: Name)
    requires Agrees(r.devices, l) && Listed(r.devices)
    ensures Agrees(DoRemove(r, name).0.devices, Enter(l, Remove(name)))
    ensures DoRemove(r, name).1 == Answer(l, Remove(name))
  {
    RemovalReplies(r, l, name);
    if Answer(l, Remove(name)).Ok? {
      RemoveAgrees(r.devices, l, Index(r.devices, name));
    }
  }

  lemma OpenAgrees(r: Reg, l: Ledger, c: Command)
    requires Agrees(r.devices, l) && Listed(r.devices) && Enabled(r, c) && c.Open?
    ensures Agrees(Apply(r, c).devices, Enter(l, c)) && Reply(r, c) == Answer(l, c)
  {
    NamedIff(r.devices, l, c.name);
    if c.name in l.entries {
      var k, e := Index(r.devices, c.name), l.entries[c.name];
      UpdateAgrees(r.devices, l, k, Used(r.devices[k], 1), e.(handles := e.handles + 1));
    }
  }

  lemma CloseAgrees(r: Reg, l: Ledger, c: Command)
    requires Agrees(r.devices, l) && Listed(r.devices) && Enabled(r, c) && c.Close?
    ensures Agrees(Apply(r, c).devices, Enter(l, c)) && Reply(r, c) == Answer(l, c)
  {
    NamedIff(r.devices, l, c.name);
    var k, e := Index(r.devices, c.name), l.entries[c.name];
    UpdateAgrees(r.devices, l, k, Used(r.devices[k], -1), e.(handles := e.handles - 1));
  }

  lemma ModuleAgrees(r: Reg, l: Ledger, c: Command)
    requires Agrees(r.devices, l) && Enabled(r, c) && (c.Init? || c.Exit?)
    ensures Agrees(Apply(r, c).devices, Enter(l, c)) && Reply(r, c) == Answer(l, c)
  {
  }

  lemma CommandAgrees(r: Reg, l: Ledger, c: Command)
    requires Listed(r.devices) && Enabled(r, c) && Agrees(r.devices, l)
    ensures Agrees(Apply(r, c).devices, Enter(l, c)) && Reply(r, c) == Answer(l, c)
  {
    if c.Create? {
      CreateAgrees(r, l, c);
    } else if c.Resize? {
      ResizeAgrees(r, l, c);
    } else if c.Remove? {
      RemovalAgrees(r, l, c.name);
    } else if c.Open? {
      OpenAgrees(r, l, c);
    } else if c.Close? {
      CloseAgrees(r, l, c);
    } else {
      ModuleAgrees(r, l, c);
    }
  }

  // ---- Main results ------------------------------------------------------------------------

  /** After every run the registry lists the devices the commands made and did not take
      away, in the order they were made, of the sizes the commands gave them, and each with
      a use count of the opens since its create less the closes. */
  lemma {:induction false} RegistryIsLedger(run: seq<Command>)
    requires Feasible(run)
    ensures Agrees(After(run).devices, LedgerOf(run))
  {
    if run != [] {
      var front := run[..|run| - 1];
      RegistryIsLedger(front);
      Always(front);
      CommandAgrees(After(front), LedgerOf(front), run[|run| - 1]);
    }
  }

  /** And every command answers as the ledger says, with which error if with one. */
  lemma {:induction false} RepliesAreAnswers(run: seq<Command>, c: Command)
    requires Feasible(run) && Enabled(After(run), c)
    ensures Reply(After(run), c) == Answer(LedgerOf(run), c)
  {
    RegistryIsLedger(run);
    Always(run);
    CommandAgrees(After(run), LedgerOf(run), c);
  }

  /** The successful opens of a name in a run, and the closes. */
  ghost function Opens(run: seq<Command>, name: Name): nat {
    if run == [] then 0
    else
      var front, last := run[..|run| - 1], run[|run| - 1];
      Opens(front, name) + if last.Open? && last.name == name && name in LedgerOf(front).entries then 1 else 0
  }

  ghost function Closes(run: seq<Command>, name: Name): nat {
    if run == [] then 0
    else Closes(run[..|run| - 1], name) + if run[|run| - 1] == Close(name) then 1 else 0
  }

  lemma CloseFindsOpen(r: Reg, l: Ledger, name: Name)
    requires Agrees(r.devices, l) && Enabled(r, Close(name))
    ensures name in l.entries
  {
    NamedIff(r.devices, l, name);
  }

  /** One command more. */
  lemma HandlesStep(l: Ledger, c: Command, name: Name, opens: nat, closes: nat)
    requires opens - closes == if name in l.entries then l.entries[name].handles else 0
    requires c.Close? ==> c.name in l.entries
    ensures var m := Enter(l, c).entries;
            opens + (if c.Open? && c.name == name && name in l.entries then 1 else 0)
            - closes - (if c == Close(name) then 1 else 0)
            == if name in m then m[name].handles else 0
  {
  }

  /** The handles on a listed device are the opens of its name less the closes; a name that
      is not listed has been closed as often as opened. */
  lemma {:induction false} HandlesAreCounted(run: seq<Command>, name: Name)
    requires Feasible(run)
    ensures var l := LedgerOf(run).entries;
            Opens(run, name) - Closes(run, name) == if name in l then l[name].handles else 0
  {
    if run != [] {
      var front, last := run[..|run| - 1], run[|run| - 1];
      HandlesAreCounted(front, name);
      if last.Close? {
        RegistryIsLedger(front);
        CloseFindsOpen(After(front), LedgerOf(front), last.name);
      }
      HandlesStep(LedgerOf(front), last, name, Opens(front, name), Closes(front, name));
    }
  }

  /** In every run the use count of a listed device is the opens of its name less the
      closes, counted from the commands. */
  lemma {:induction false} UseCountIsExact(run: seq<Command>, k: nat)
    requires Feasible(run) && k < |After(run).devices|
    ensures var d := After(run).devices[k]; d.ucnt == Opens(run, d.name) - Closes(run, d.name)
  {
    RegistryIsLedger(run);
    HandlesAreCounted(run, After(run).devices[k].name);
  }

  lemma RemoveOkIfShut(r: Reg, l: Ledger, name: Name, opens: nat, closes: nat)
    requires Agrees(r.devices, l) && Listed(r.devices)
    requires opens - closes == if name in l.entries then l.entries[name].handles else 0
    ensures DoRemove(r, name).1.Ok? <==> Named(r.devices, name) && opens == closes
  {
    NamedIff(r.devices, l, name);
  }

  /** In every run a remove succeeds exactly for a listed device whose opens have all been
      closed. */
  lemma {:induction false} RemoveSucceedsIff(run: seq<Command>, name: Name)
    requires Feasible(run)
    ensures DoRemove(After(run), name).1.Ok?
            <==> Named(After(run).devices, name) && Opens(run, name) == Closes(run, name)
  {
    var r, l := After(run), LedgerOf(run);
    RegistryIsLedger(run);
    Always(run);
    HandlesAreCounted(run, name);
    RemoveOkIfShut(r, l, name, Opens(run, name), Closes(run, name));
  }
}
