/** The device registry as a value: what each control command makes of the list of
    devices and of the kernel resources the module holds. */
module RegistrySpec {
  import opened Common
  import opened Names
  import opened Words
  import opened Geometry

  /** What the module acquires and must give back.  A char device is the one inside
      the device structure at that address; a node is known by its number. */
  datatype Res =
    | Mem(addr: nat)
    | Queue(id: nat)
    | BlockMajor(major: nat)
    | CharRegion(num: nat)
    | CharDev(addr: nat)
    | Node(num: nat)
    | GenDisk(id: nat)
    | WorkQueue
    | DeviceClass
    | ControlDev

  datatype Device = Device(
    name: Name,
    geo: Geo,
    mem: nat, queue: nat, major: nat, num: nat, disk: nat,
    ucnt: int,                   // open handles of the block device and the tunnel
    removing: bool)

  function Owned(d: Device): multiset<Res> {
    multiset{Mem(d.mem), Queue(d.queue), BlockMajor(d.major), CharRegion(d.num), CharDev(d.mem),
             Node(d.num), GenDisk(d.disk)}
  }

  function Sum(ms: seq<multiset<Res>>): multiset<Res> {
    if ms == [] then multiset{} else Sum(ms[..|ms| - 1]) + ms[|ms| - 1]
  }

  function OwnedEach(ds: seq<Device>): (ms: seq<multiset<Res>>)
    ensures |ms| == |ds| && forall k :: 0 <= k < |ds| ==> ms[k] == Owned(ds[k])
  {
    seq(|ds|, k requires 0 <= k < |ds| => Owned(ds[k]))
  }

  function OwnedAll(ds: seq<Device>): multiset<Res> {
    Sum(OwnedEach(ds))
  }

  /** What an initialised module holds besides its devices. */
  function Base(num: nat): multiset<Res> {
    multiset{WorkQueue, DeviceClass, CharRegion(num), ControlDev, Node(num)}
  }

  datatype Reg = Reg(
    control: Option<nat>,        // the control device's number, while the module is loaded
    devices: seq<Device>,
    held: multiset<Res>,
    refs: int,                   // references that devices hold on the module
    // history
    leaked: multiset<Res>)

  const UNLOADED := Reg(None, [], multiset{}, 0, multiset{})

  /** What the kernel answers to a create, call by call. */
  datatype Supply = Supply(
    mem: Option<nat>,
    queue: Option<nat>,
    major: Result<nat>,
    region: Result<nat>,
    cdev: Result<()>,
    node: bool,
    disk: Option<nat>)

  /** The first call that fails decides the result. */
  function Outcome(s: Supply): Result<()> {
    if s.mem.None? || s.queue.None? then Err(ENOMEM)
    else if s.major.Err? then Err(s.major.errno)
    else if s.region.Err? then Err(s.region.errno)
    else if s.cdev.Err? then s.cdev
    else if !s.node || s.disk.None? then Err(ENOMEM)
    else Ok(())
  }

  /** Everything was supplied but the disk. */
  predicate OnlyDiskFails(s: Supply) {
    && s.mem.Some? && s.queue.Some? && s.major.Ok? && s.region.Ok? && s.cdev.Ok? && s.node
    && s.disk.None?
  }

  predicate Named(ds: seq<Device>, name: Name) {
    exists k :: 0 <= k < |ds| && ds[k].name == name
  }

  /** The position of the first device of a name from k on, or the number of devices. */
  function IndexFrom(ds: seq<Device>, name: Name, k: nat): (i: nat)
    requires k <= |ds|
    ensures k <= i <= |ds|
    decreases |ds| - k
  {
    if k == |ds| || ds[k].name == name then k else IndexFrom(ds, name, k + 1)
  }

  function Index(ds: seq<Device>, name: Name): (i: nat)
    ensures i <= |ds|
  {
    IndexFrom(ds, name, 0)
  }

  lemma {:induction false} FirstFrom(ds: seq<Device>, name: Name, k: nat)
    requires k <= |ds|
    ensures var i := IndexFrom(ds, name, k);
            (i < |ds| ==> ds[i].name == name) && forall j :: k <= j < i ==> ds[j].name != name
    decreases |ds| - k
  {
    if k < |ds| && ds[k].name != name {
      FirstFrom(ds, name, k + 1);
    }
  }

  /** A lookup finds the first device of that name, if there is one. */
  lemma IndexIsFirst(ds: seq<Device>, name: Name, i: nat)
    requires i <= |ds|
    ensures i == Index(ds, name)
            <==> (i < |ds| ==> ds[i].name == name) && forall j :: 0 <= j < i ==> ds[j].name != name
  {
    FirstFrom(ds, name, 0);
  }

  function NewDevice(name: Name, block: nat, size: nat, s: Supply): Device
    requires block > 0 && Outcome(s).Ok?
  {
    Device(name, Created(block, size), s.mem.value, s.queue.value, s.major.value, s.region.value, s.disk.value,
           0, false)
  }

  /** bdtun_create_k.  A failed create gives back all it acquired, but for the node
      when the disk is what failed. */
  function DoCreate(r: Reg, name: Name, block: nat, size: nat, s: Supply): (Reg, Result<()>) {
    if Named(r.devices, name) then (r, Err(EEXIST))
    else if !SizesOk(block, size) then (r, Err(EINVAL))
    else if Outcome(s).Ok? then
      var d := NewDevice(name, block, size, s);
      (r.(devices := r.devices + [d], held := r.held + Owned(d), refs := r.refs + 1), Ok(()))
    else if OnlyDiskFails(s) then
      var left := multiset{Node(s.region.value)};
      (r.(held := r.held + left, leaked := r.leaked + left), Err(ENOMEM))
    else (r, Outcome(s))
  }

  /** bdtun_resize_k */
  function DoResize(r: Reg, name: Name, size: nat, revalidation: Result<()>): (Reg, Result<()>) {
    var k := Index(r.devices, name);
    if k == |r.devices| then (r, Err(ENOENT))
    else
      var d := r.devices[k];
      (r.(devices := r.devices[k := d.(geo := Resized(d.geo, size, revalidation.Ok?))]), revalidation)
  }

  function RemoveAt(r: Reg, k: nat): Reg
    requires k < |r.devices|
  {
    r.(devices := r.devices[..k] + r.devices[k + 1..],
       held := r.held - Owned(r.devices[k]), refs := r.refs - 1)
  }

  /** bdtun_remove_k */
  function DoRemove(r: Reg, name: Name): (Reg, Result<()>) {
    var k := Index(r.devices, name);
    if k == |r.devices| then (r, Err(ENOENT))
    else if r.devices[k].removing || r.devices[k].ucnt != 0 then (r, Err(EBUSY))
    else (RemoveAt(r, k), Ok(()))
  }

  function Used(d: Device, n: int): Device {
    d.(ucnt := d.ucnt + n)
  }

  /** bdtun_open and bdtunch_open; a device that is not there has no node to open. */
  function DoOpen(r: Reg, name: Name, tunnel: bool): (Reg, Result<()>) {
    var k := Index(r.devices, name);
    if k == |r.devices| then (r, Err(ENOENT))
    else
      var d := r.devices[k];
      if d.removing then (r, Err(if tunnel then EBUSY else ENOENT))
      else (r.(devices := r.devices[k := Used(d, 1)]), Ok(()))
  }

  /** The count given up by bdtun_release and bdtunch_release. */
  function DoClose(r: Reg, name: Name): Reg
    requires Index(r.devices, name) < |r.devices|
  {
    var k := Index(r.devices, name);
    var d := r.devices[k];
    r.(devices := r.devices[k := Used(d, -1)])
  }

  /** bdtun_init; fails is the number of calls that succeed, or 5 and more.  Every
      failure is reported as ENOMEM. */
  function DoInit(r: Reg, num: nat, fails: nat): (Reg, Result<()>) {
    if fails < 5 then (r, Err(ENOMEM))
    else (r.(control := Some(num), held := r.held + Base(num)), Ok(()))
  }

  /** bdtun_exit; the kernel unloads a module only once nothing refers to it. */
  function DoExit(r: Reg): Reg
    requires r.control.Some?
  {
    r.(control := None, held := r.held - Base(r.control.value))
  }

  // ---- Every run -----------------------------------------------------------------------------

  datatype Command =
    | Create(name: Name, block: nat, size: nat, supply: Supply)
    | Resize(name: Name, size: nat, revalidation: Result<()>)
    | Remove(name: Name)
    | Open(name: Name, tunnel: bool)
    | Close(name: Name)
    | Init(num: nat, fails: nat)
    | Exit

  /** The kernel hands out nothing that is still held. */
  predicate Fresh(held: multiset<Res>, s: Supply) {
    && (s.mem.Some? ==> Mem(s.mem.value) !in held)
    && (s.queue.Some? ==> Queue(s.queue.value) !in held)
    && (s.major.Ok? ==> BlockMajor(s.major.value) !in held)
    && (s.region.Ok? ==> CharRegion(s.region.value) !in held)
    && (s.region.Ok? && s.node ==> Node(s.region.value) !in held)
    && (s.disk.Some? ==> GenDisk(s.disk.value) !in held)
  }

  predicate Enabled(r: Reg, c: Command) {
    match c
    case Create(_, _, _, s) => r.control.Some? && Fresh(r.held, s)
    case Resize(_, _, _) => r.control.Some?
    case Remove(_) => r.control.Some?
    case Open(_, _) => true
    case Close(name) => Index(r.devices, name) < |r.devices| && r.devices[Index(r.devices, name)].ucnt > 0
    case Init(num, fails) => r.control.None? && (fails >= 5 ==> CharRegion(num) !in r.held && Node(num) !in r.held)
    case Exit => r.control.Some? && r.refs == 0
  }

  function Apply(r: Reg, c: Command): Reg
    requires Enabled(r, c)
  {
    match c
    case Create(name, block, size, s) => DoCreate(r, name, block, size, s).0
    case Resize(name, size, revalidation) => DoResize(r, name, size, revalidation).0
    case Remove(name) => DoRemove(r, name).0
    case Open(name, tunnel) => DoOpen(r, name, tunnel).0
    case Close(name) => DoClose(r, name)
    case Init(num, fails) => DoInit(r, num, fails).0
    case Exit => DoExit(r)
  }

  ghost predicate Feasible(run: seq<Command>)
    decreases |run|, 0
  {
    run == [] || (Feasible(run[..|run| - 1]) && Enabled(After(run[..|run| - 1]), run[|run| - 1]))
  }

  ghost function After(run: seq<Command>): Reg
    requires Feasible(run)
    decreases |run|, 1
  {
    if run == [] then UNLOADED else Apply(After(run[..|run| - 1]), run[|run| - 1])
  }

  // ---- What every command keeps ----------------------------------------------------------------

  function OfModule(r: Reg): multiset<Res> {
    if r.control.Some? then Base(r.control.value) else multiset{}
  }

  /** What is held is exactly what the module and its devices own, and the leaks. */
  ghost predicate Conserved(r: Reg) {
    && r.held == OfModule(r) + OwnedAll(r.devices) + r.leaked
    && r.refs == |r.devices|
    && (r.control.None? ==> r.devices == [])
    && (forall x :: x in r.leaked ==> x.Node?)
  }

  /** Nothing is held twice, so nothing given back is another device's. */
  ghost predicate Exclusive(r: Reg) {
    forall x :: r.held[x] <= 1
  }

  predicate Unique(ds: seq<Device>) {
    forall i, j :: 0 <= i < j < |ds| ==> ds[i].name != ds[j].name
  }

  /** Between commands no listed device is being removed. */
  predicate Settled(ds: seq<Device>) {
    forall k :: 0 <= k < |ds| ==> ds[k].ucnt >= 0 && !ds[k].removing
  }

  predicate Listed(ds: seq<Device>) {
    Unique(ds) && Settled(ds)
  }

  ghost predicate Inv(r: Reg) {
    Conserved(r) && Exclusive(r) && Listed(r.devices)
  }

  lemma SumAppend(ms: seq<multiset<Res>>, m: multiset<Res>)
    ensures Sum(ms + [m]) == Sum(ms) + m
  {
    assert (ms + [m])[..|ms|] == ms;
  }

  lemma {:induction false} SumWithout(ms: seq<multiset<Res>>, k: nat)
    requires k < |ms|
    ensures Sum(ms) == Sum(ms[..k] + ms[k + 1..]) + ms[k]
  {
    var n := |ms| - 1;
    if k == n {
      assert ms[..k] + ms[k + 1..] == ms[..n];
    } else {
      SumWithout(ms[..n], k);
      SumAppend(ms[..n][..k] + ms[..n][k + 1..], ms[n]);
      assert ms[..k] + ms[k + 1..] == ms[..n][..k] + ms[..n][k + 1..] + [ms[n]];
    }
  }

  lemma OwnedAppend(ds: seq<Device>, d: Device)
    ensures OwnedAll(ds + [d]) == OwnedAll(ds) + Owned(d)
  {
    assert OwnedEach(ds + [d]) == OwnedEach(ds) + [Owned(d)];
    SumAppend(OwnedEach(ds), Owned(d));
  }

  lemma OwnedWithout(ds: seq<Device>, k: nat)
    requires k < |ds|
    ensures OwnedAll(ds) == OwnedAll(ds[..k] + ds[k + 1..]) + Owned(ds[k])
  {
    var ms := OwnedEach(ds);
    assert OwnedEach(ds[..k] + ds[k + 1..]) == ms[..k] + ms[k + 1..];
    SumWithout(ms, k);
  }

  lemma OwnedSame(ds: seq<Device>, k: nat, d: Device)
    requires k < |ds| && SameHolder(d, ds[k])
    ensures OwnedAll(ds[k := d]) == OwnedAll(ds)
  {
    assert OwnedEach(ds[k := d]) == OwnedEach(ds);
  }

  lemma {:induction false} OwnedSize(ds: seq<Device>)
    ensures |OwnedAll(ds)| == 7 * |ds|
  {
    if ds != [] {
      var n := |ds| - 1;
      OwnedSize(ds[..n]);
      assert OwnedEach(ds)[..n] == OwnedEach(ds[..n]);
    }
  }

  lemma CharDevInOwned(d: Device, a: nat)
    ensures Owned(d)[CharDev(a)] == Owned(d)[Mem(a)] == if a == d.mem then 1 else 0
  {
  }

  /** A char device is held just when the structure it lies in is. */
  lemma {:induction false} CharDevInMem(ms: seq<multiset<Res>>, a: nat)
    requires forall k :: 0 <= k < |ms| ==> ms[k][CharDev(a)] == ms[k][Mem(a)]
    ensures Sum(ms)[CharDev(a)] == Sum(ms)[Mem(a)]
  {
    if ms != [] {
      CharDevInMem(ms[..|ms| - 1], a);
    }
  }

  lemma BaseCounts(r: Reg, a: nat)
    requires forall x :: x in r.leaked ==> x.Node?
    ensures (OfModule(r) + r.leaked)[CharDev(a)] == (OfModule(r) + r.leaked)[Mem(a)] == 0
  {
  }

  lemma CharDevFresh(r: Reg, a: nat)
    requires Conserved(r) && Mem(a) !in r.held
    ensures CharDev(a) !in r.held
  {
    var ms := OwnedEach(r.devices);
    forall k | 0 <= k < |ms| ensures ms[k][CharDev(a)] == ms[k][Mem(a)] {
      CharDevInOwned(r.devices[k], a);
    }
    CharDevInMem(ms, a);
    BaseCounts(r, a);
    CountsAdd(OfModule(r), OwnedAll(r.devices), r.leaked, CharDev(a));
    CountsAdd(OfModule(r), OwnedAll(r.devices), r.leaked, Mem(a));
  }

  lemma CountsAdd(a: multiset<Res>, b: multiset<Res>, c: multiset<Res>, x: Res)
    ensures (a + b + c)[x] == (a + c)[x] + b[x]
  {
  }

  /** What is fresh for a device is fresh as a whole. */
  lemma FreshOwned(held: multiset<Res>, d: Device, x: Res)
    requires x in Owned(d)
    requires Mem(d.mem) !in held && Queue(d.queue) !in held && BlockMajor(d.major) !in held
    requires CharRegion(d.num) !in held && Node(d.num) !in held && GenDisk(d.disk) !in held
    requires CharDev(d.mem) !in held
    ensures held[x] == 0 && Owned(d)[x] == 1
  {
  }

  lemma AddExclusive(held: multiset<Res>, more: multiset<Res>)
    requires forall x :: held[x] <= 1
    requires forall x :: x in more ==> held[x] == 0 && more[x] == 1
    ensures forall x :: (held + more)[x] <= 1
  {
    forall x ensures (held + more)[x] <= 1 {
      assert (held + more)[x] == held[x] + more[x];
    }
  }

  lemma CreatedConserved(r: Reg, d: Device)
    requires Conserved(r) && r.control.Some?
    ensures Conserved(r.(devices := r.devices + [d], held := r.held + Owned(d), refs := r.refs + 1))
  {
    OwnedAppend(r.devices, d);
    Regroup(OfModule(r), OwnedAll(r.devices), r.leaked, Owned(d));
  }

  lemma Regroup(a: multiset<Res>, b: multiset<Res>, c: multiset<Res>, own: multiset<Res>)
    ensures a + b + c + own == a + (b + own) + c
  {
  }

  lemma CreatedExclusive(held: multiset<Res>, d: Device)
    requires forall x :: held[x] <= 1
    requires Mem(d.mem) !in held && Queue(d.queue) !in held && BlockMajor(d.major) !in held
    requires CharRegion(d.num) !in held && Node(d.num) !in held && GenDisk(d.disk) !in held
    requires CharDev(d.mem) !in held
    ensures forall x :: (held + Owned(d))[x] <= 1
  {
    forall x | x in Owned(d) ensures held[x] == 0 && Owned(d)[x] == 1 {
      FreshOwned(held, d, x);
    }
    AddExclusive(held, Owned(d));
  }

  lemma LeakConserved(r: Reg, num: nat)
    requires Conserved(r)
    ensures var left := multiset{Node(num)};
            Conserved(r.(held := r.held + left, leaked := r.leaked + left))
  {
    AddLast(OfModule(r) + OwnedAll(r.devices), r.leaked, multiset{Node(num)});
  }

  lemma AddLast(a: multiset<Res>, b: multiset<Res>, left: multiset<Res>)
    ensures a + b + left == a + (b + left)
  {
  }

  lemma ListedAppend(ds: seq<Device>, d: Device)
    requires Listed(ds) && !Named(ds, d.name) && d.ucnt >= 0 && !d.removing
    ensures Listed(ds + [d])
  {
  }

  lemma ListedUpdate(ds: seq<Device>, k: nat, d: Device)
    requires Listed(ds) && k < |ds| && d.name == ds[k].name && d.ucnt >= 0 && !d.removing
    ensures Listed(ds[k := d])
  {
  }

  lemma ListedWithout(ds: seq<Device>, k: nat)
    requires Listed(ds) && k < |ds|
    ensures Listed(ds[..k] + ds[k + 1..])
  {
  }

  /** The three things a create can do to the registry. */
  ghost predicate CreateDoes(r: Reg, name: Name, block: nat, size: nat, s: Supply, c: Reg) {
    if !Named(r.devices, name) && SizesOk(block, size) && Outcome(s).Ok? then
      var d := NewDevice(name, block, size, s);
      c == r.(devices := r.devices + [d], held := r.held + Owned(d), refs := r.refs + 1)
    else if !Named(r.devices, name) && SizesOk(block, size) && OnlyDiskFails(s) then
      var left := multiset{Node(s.region.value)};
      c == r.(held := r.held + left, leaked := r.leaked + left)
    else c == r
  }

  lemma CreateCases(r: Reg, name: Name, block: nat, size: nat, s: Supply)
    ensures CreateDoes(r, name, block, size, s, DoCreate(r, name, block, size, s).0)
  {
  }

  lemma CreateConserves(r: Reg, name: Name, block: nat, size: nat, s: Supply, c: Reg)
    requires Conserved(r) && r.control.Some? && CreateDoes(r, name, block, size, s, c)
    ensures Conserved(c)
  {
    if !Named(r.devices, name) && SizesOk(block, size) {
      if Outcome(s).Ok? {
        CreatedConserved(r, NewDevice(name, block, size, s));
      } else if OnlyDiskFails(s) {
        LeakConserved(r, s.region.value);
      }
    }
  }

  lemma MadeExclusive(held: multiset<Res>, name: Name, block: nat, size: nat, s: Supply)
    requires block > 0 && Outcome(s).Ok? && Fresh(held, s) && CharDev(s.mem.value) !in held
    requires forall x :: held[x] <= 1
    ensures forall x :: (held + Owned(NewDevice(name, block, size, s)))[x] <= 1
  {
    CreatedExclusive(held, NewDevice(name, block, size, s));
  }

  lemma LeftExclusive(held: multiset<Res>, num: nat)
    requires Node(num) !in held && forall x :: held[x] <= 1
    ensures forall x :: (held + multiset{Node(num)})[x] <= 1
  {
    AddExclusive(held, multiset{Node(num)});
  }

  lemma CreateExclusive(r: Reg, name: Name, block: nat, size: nat, s: Supply, c: Reg)
    requires Exclusive(r) && Fresh(r.held, s) && CreateDoes(r, name, block, size, s, c)
    requires s.mem.Some? ==> CharDev(s.mem.value) !in r.held
    ensures Exclusive(c)
  {
    if !Named(r.devices, name) && SizesOk(block, size) && Outcome(s).Ok? {
      MadeExclusive(r.held, name, block, size, s);
    } else if !Named(r.devices, name) && SizesOk(block, size) && OnlyDiskFails(s) {
      LeftExclusive(r.held, s.region.value);
    }
  }

  lemma CreateListed(r: Reg, name: Name, block: nat, size: nat, s: Supply, c: Reg)
    requires Listed(r.devices) && CreateDoes(r, name, block, size, s, c)
    ensures Listed(c.devices)
  {
    if !Named(r.devices, name) && SizesOk(block, size) && Outcome(s).Ok? {
      ListedAppend(r.devices, NewDevice(name, block, size, s));
    }
  }

  /** A create, with any failures, keeps every resource accounted for, none held twice,
      and names distinct. */
  lemma {:induction false} CreateKeeps(r: Reg, name: Name, block: nat, size: nat, s: Supply, c: Reg)
    requires Conserved(r) && Exclusive(r) && Listed(r.devices)
    requires r.control.Some? && Fresh(r.held, s) && CreateDoes(r, name, block, size, s, c)
    ensures Conserved(c) && Exclusive(c) && Listed(c.devices)
  {
    if s.mem.Some? {
      CharDevFresh(r, s.mem.value);
    }
    CreateConserves(r, name, block, size, s, c);
    CreateExclusive(r, name, block, size, s, c);
    CreateListed(r, name, block, size, s, c);
  }

  /** A device that changes in anything but its name and its resources. */
  predicate SameHolder(d: Device, e: Device) {
    && d.name == e.name
    && d.mem == e.mem && d.queue == e.queue && d.major == e.major && d.num == e.num && d.disk == e.disk
  }

  lemma UpdatedConserved(r: Reg, k: nat, d: Device)
    requires Conserved(r) && k < |r.devices| && SameHolder(d, r.devices[k])
    ensures Conserved(r.(devices := r.devices[k := d]))
  {
    OwnedSame(r.devices, k, d);
  }

  lemma UpdatedKeeps(r: Reg, k: nat, d: Device)
    requires Inv(r) && k < |r.devices| && SameHolder(d, r.devices[k]) && d.ucnt >= 0 && !d.removing
    ensures Inv(r.(devices := r.devices[k := d]))
  {
    UpdatedConserved(r, k, d);
    ListedUpdate(r.devices, k, d);
  }

  lemma ResizeCases(r: Reg, name: Name, size: nat, revalidation: Result<()>)
    ensures var k, c := Index(r.devices, name), DoResize(r, name, size, revalidation).0;
            if k < |r.devices| then
              var d := r.devices[k];
              c == r.(devices := r.devices[k := d.(geo := Resized(d.geo, size, revalidation.Ok?))])
            else c == r
  {
  }

  lemma ResizeConserves(r: Reg, name: Name, size: nat, revalidation: Result<()>, c: Reg)
    requires Conserved(r) && c == DoResize(r, name, size, revalidation).0
    ensures Conserved(c)
  {
    var k := Index(r.devices, name);
    ResizeCases(r, name, size, revalidation);
    if k < |r.devices| {
      var d := r.devices[k];
      UpdatedConserved(r, k, d.(geo := Resized(d.geo, size, revalidation.Ok?)));
    }
  }

  lemma ResizeKeeps(r: Reg, name: Name, size: nat, revalidation: Result<()>)
    requires Inv(r)
    ensures Inv(DoResize(r, name, size, revalidation).0)
  {
    var k := Index(r.devices, name);
    if k < |r.devices| {
      var d := r.devices[k];
      UpdatedKeeps(r, k, d.(geo := Resized(d.geo, size, revalidation.Ok?)));
    }
  }

  lemma OpenCases(r: Reg, name: Name, tunnel: bool)
    ensures var k, c := Index(r.devices, name), DoOpen(r, name, tunnel).0;
            if k < |r.devices| && !r.devices[k].removing
            then c == r.(devices := r.devices[k := Used(r.devices[k], 1)])
            else c == r
  {
  }

  lemma OpenConserves(r: Reg, name: Name, tunnel: bool, c: Reg)
    requires Conserved(r) && c == DoOpen(r, name, tunnel).0
    ensures Conserved(c)
  {
    var k := Index(r.devices, name);
    OpenCases(r, name, tunnel);
    if k < |r.devices| && !r.devices[k].removing {
      UpdatedConserved(r, k, Used(r.devices[k], 1));
    }
  }

  lemma OpenKeeps(r: Reg, name: Name, tunnel: bool, c: Reg)
    requires Inv(r) && c == DoOpen(r, name, tunnel).0
    ensures Inv(c)
  {
    var k := Index(r.devices, name);
    OpenCases(r, name, tunnel);
    if k < |r.devices| && !r.devices[k].removing {
      UpdatedKeeps(r, k, Used(r.devices[k], 1));
    }
  }

  lemma CloseConserves(r: Reg, name: Name, c: Reg)
    requires Conserved(r) && Index(r.devices, name) < |r.devices| && c == DoClose(r, name)
    ensures Conserved(c)
  {
    var k := Index(r.devices, name);
    UpdatedConserved(r, k, Used(r.devices[k], -1));
  }

  lemma CloseKeeps(r: Reg, name: Name)
    requires Inv(r) && Index(r.devices, name) < |r.devices| && r.devices[Index(r.devices, name)].ucnt > 0
    ensures Inv(DoClose(r, name))
  {
    var k := Index(r.devices, name);
    UpdatedKeeps(r, k, Used(r.devices[k], -1));
  }

  lemma SubtractExclusive(held: multiset<Res>, less: multiset<Res>)
    requires forall x :: held[x] <= 1
    ensures forall x :: (held - less)[x] <= 1
  {
    forall x ensures (held - less)[x] <= 1 {
      assert (held - less)[x] <= held[x];
    }
  }

  lemma RemovedConserved(r: Reg, k: nat)
    requires Conserved(r) && k < |r.devices|
    ensures Conserved(RemoveAt(r, k))
  {
    var rest := OwnedAll(r.devices[..k] + r.devices[k + 1..]);
    OwnedWithout(r.devices, k);
    TakeBack(OfModule(r), rest, r.leaked, Owned(r.devices[k]));
  }

  lemma TakeBack(a: multiset<Res>, b: multiset<Res>, c: multiset<Res>, own: multiset<Res>)
    ensures a + (b + own) + c - own == a + b + c
  {
  }

  lemma RemovedKeeps(r: Reg, k: nat)
    requires Inv(r) && k < |r.devices|
    ensures Inv(RemoveAt(r, k))
  {
    RemovedConserved(r, k);
    SubtractExclusive(r.held, Owned(r.devices[k]));
    ListedWithout(r.devices, k);
  }

  lemma RemoveCases(r: Reg, name: Name)
    ensures var k, c := Index(r.devices, name), DoRemove(r, name).0;
            if k < |r.devices| && !r.devices[k].removing && r.devices[k].ucnt == 0 then c == RemoveAt(r, k)
            else c == r
  {
  }

  lemma RemoveConserves(r: Reg, name: Name, c: Reg)
    requires Conserved(r) && c == DoRemove(r, name).0
    ensures Conserved(c)
    ensures Index(r.devices, name) < |r.devices| ==> Owned(r.devices[Index(r.devices, name)]) <= r.held
  {
    var k := Index(r.devices, name);
    RemoveCases(r, name);
    if k < |r.devices| {
      RemovedConserved(r, k);
      DevicesOwn(r, k);
    }
  }

  /** A listed device's resources are among those held, so a remove finds what it gives
      back. */
  lemma DevicesOwn(r: Reg, k: nat)
    requires Conserved(r) && k < |r.devices|
    ensures Owned(r.devices[k]) <= r.held
  {
    OwnedWithout(r.devices, k);
  }

  lemma {:induction false} RemoveKeeps(r: Reg, name: Name, c: Reg)
    requires Inv(r) && c == DoRemove(r, name).0
    ensures Inv(c)
  {
    var k := Index(r.devices, name);
    RemoveCases(r, name);
    if k < |r.devices| && !r.devices[k].removing && r.devices[k].ucnt == 0 {
      RemovedKeeps(r, k);
    }
  }

  lemma InitConserves(r: Reg, num: nat)
    requires Conserved(r) && r.control.None?
    ensures Conserved(r.(control := Some(num), held := r.held + Base(num))) && r.held == r.leaked
  {
  }

  lemma InitExclusive(held: multiset<Res>, num: nat)
    requires forall x :: held[x] <= 1
    requires forall x :: x in held ==> x.Node?
    requires Node(num) !in held
    ensures forall x :: (held + Base(num))[x] <= 1
  {
    forall x | x in Base(num) ensures held[x] == 0 && Base(num)[x] == 1 {
    }
    AddExclusive(held, Base(num));
  }

  lemma InitKeeps(r: Reg, num: nat, fails: nat)
    requires Inv(r) && Enabled(r, Init(num, fails))
    ensures Inv(DoInit(r, num, fails).0)
  {
    if fails >= 5 {
      InitConserves(r, num);
      InitExclusive(r.held, num);
    }
  }

  /** A module nothing refers to has no device left, and unloads but for the leaks. */
  lemma ExitKeeps(r: Reg)
    requires Conserved(r) && r.control.Some? && r.refs == 0
    ensures r.devices == [] && DoExit(r).held == r.leaked && Conserved(DoExit(r))
    ensures Exclusive(r) ==> Exclusive(DoExit(r))
  {
  }

  lemma ApplyKeeps(r: Reg, c: Command)
    requires Inv(r) && Enabled(r, c)
    ensures Inv(Apply(r, c))
  {
    match c
    case Create(name, block, size, s) =>
      CreateCases(r, name, block, size, s);
      CreateKeeps(r, name, block, size, s, Apply(r, c));
    case Resize(name, size, revalidation) => ResizeKeeps(r, name, size, revalidation);
    case Remove(name) => RemoveKeeps(r, name, Apply(r, c));
    case Open(name, tunnel) => OpenKeeps(r, name, tunnel, Apply(r, c));
    case Close(name) => CloseKeeps(r, name);
    case Init(num, fails) => InitKeeps(r, num, fails);
    case Exit => ExitKeeps(r);
  }

  lemma {:induction false} Always(run: seq<Command>)
    requires Feasible(run)
    ensures Inv(After(run))
  {
    if run != [] {
      Always(run[..|run| - 1]);
      ApplyKeeps(After(run[..|run| - 1]), run[|run| - 1]);
    }
  }

  // ---- Main results ----------------------------------------------------------------------------

  /** In every run: names are pairwise distinct; n devices hold exactly n of each
      resource and n module references, on top of the module's own five and the
      leaks; nothing is held twice; once the module is unloaded only leaks remain. */
  lemma {:induction false} Conservation(run: seq<Command>)
    requires Feasible(run)
    ensures var r := After(run);
            && Unique(r.devices) && Exclusive(r)
            && r.held == OfModule(r) + OwnedAll(r.devices) + r.leaked
            && |r.held| == (if r.control.Some? then 5 else 0) + 7 * |r.devices| + |r.leaked|
            && r.refs == |r.devices|
            && (r.control.None? ==> r.held == r.leaked)
  {
    Always(run);
    OwnedSize(After(run).devices);
  }

  predicate Leaks(r: Reg, c: Command) {
    c.Create? && !Named(r.devices, c.name) && SizesOk(c.block, c.size) && OnlyDiskFails(c.supply)
  }

  ghost function LeakCount(run: seq<Command>): nat
    requires Feasible(run)
  {
    if run == [] then 0
    else LeakCount(run[..|run| - 1]) + if Leaks(After(run[..|run| - 1]), run[|run| - 1]) then 1 else 0
  }

  lemma LeakedByCreate(r: Reg, name: Name, block: nat, size: nat, s: Supply, c: Reg)
    requires CreateDoes(r, name, block, size, s, c)
    ensures |c.leaked|
            == |r.leaked| + if !Named(r.devices, name) && SizesOk(block, size) && OnlyDiskFails(s) then 1 else 0
  {
  }

  lemma LeakedByCommand(r: Reg, c: Command)
    requires Enabled(r, c)
    ensures |Apply(r, c).leaked| == |r.leaked| + if Leaks(r, c) then 1 else 0
  {
    if c.Create? {
      CreateCases(r, c.name, c.block, c.size, c.supply);
      LeakedByCreate(r, c.name, c.block, c.size, c.supply, Apply(r, c));
    }
  }

  /** The nodes left behind are as many as the creates that failed at the disk. */
  lemma {:induction false} LeaksAreFailedDisks(run: seq<Command>)
    requires Feasible(run)
    ensures |After(run).leaked| == LeakCount(run)
  {
    if run != [] {
      LeaksAreFailedDisks(run[..|run| - 1]);
      LeakedByCommand(After(run[..|run| - 1]), run[|run| - 1]);
    }
  }

  /** A lookup finds the device of that name, and it is the only one. */
  lemma {:induction false} LookupIsUnique(run: seq<Command>, name: Name, k: nat)
    requires Feasible(run) && k < |After(run).devices|
    ensures After(run).devices[k].name == name <==> k == Index(After(run).devices, name)
  {
    Always(run);
    OnlyOneNamed(After(run).devices, name, k);
  }

  lemma OnlyOneNamed(ds: seq<Device>, name: Name, k: nat)
    requires Unique(ds) && k < |ds|
    ensures ds[k].name == name <==> k == Index(ds, name)
  {
    IndexIsFirst(ds, name, k);
  }

  /** A create that fails leaves everything as it was, except exactly when only the
      disk could not be allocated: then the device node stays behind. */
  lemma FailedCreateRestoresIff(r: Reg, name: Name, block: nat, size: nat, s: Supply)
    requires DoCreate(r, name, block, size, s).1.Err?
    ensures DoCreate(r, name, block, size, s).0 == r
            <==> Named(r.devices, name) || !SizesOk(block, size) || !OnlyDiskFails(s)
  {
    if OnlyDiskFails(s) {
      var left := multiset{Node(s.region.value)};
      assert (r.held + left)[Node(s.region.value)] == r.held[Node(s.region.value)] + 1;
    }
  }

  lemma RemoveOkIff(r: Reg, name: Name)
    requires Listed(r.devices)
    ensures DoRemove(r, name).1.Ok?
            <==> exists k :: 0 <= k < |r.devices| && r.devices[k].name == name && r.devices[k].ucnt == 0
  {
    IndexIsFirst(r.devices, name, Index(r.devices, name));
  }

  /** A remove undoes a create. */
  lemma RemoveUndoesCreate(r: Reg, name: Name, block: nat, size: nat, s: Supply)
    requires DoCreate(r, name, block, size, s).1.Ok?
    ensures DoRemove(DoCreate(r, name, block, size, s).0, name) == (r, Ok(()))
  {
    var c := DoCreate(r, name, block, size, s).0;
    var n := |r.devices|;
    assert c.devices[n].name == name;
    assert forall k :: 0 <= k < n ==> c.devices[k] == r.devices[k];
    IndexIsFirst(c.devices, name, n);
    assert c.devices[..n] + c.devices[n + 1..] == r.devices;
    assert c.held - Owned(c.devices[n]) == r.held;
  }

  // ---- Sizes over runs -------------------------------------------------------------------------

  predicate Sound(ds: seq<Device>) {
    forall k :: 0 <= k < |ds| ==> Covers(ds[k].geo)
  }

  /** Sizes are 64-bit, and no revalidation fails. */
  predicate Sized(c: Command) {
    && (c.Create? ==> c.size < WORD_LIMIT)
    && (c.Resize? ==> c.size < WORD_LIMIT && c.revalidation.Ok?)
  }

  /** As long as no revalidation fails, no device ever promises the block layer more
      than its size. */
  lemma {:induction false} CapacityWithinSize(run: seq<Command>)
    requires Feasible(run) && forall k :: 0 <= k < |run| ==> Sized(run[k])
    ensures Sound(After(run).devices)
  {
    if run != [] {
      CapacityWithinSize(run[..|run| - 1]);
      SizedKeeps(After(run[..|run| - 1]), run[|run| - 1]);
    }
  }

  lemma CreatedSound(r: Reg, name: Name, block: nat, size: nat, s: Supply)
    requires Sound(r.devices) && size < WORD_LIMIT
    ensures Sound(DoCreate(r, name, block, size, s).0.devices)
  {
    CreateCases(r, name, block, size, s);
    if SizesOk(block, size) {
      CreatedIsExact(block, size);
    }
  }

  lemma ResizedSound(r: Reg, name: Name, size: nat, revalidation: Result<()>)
    requires Sound(r.devices) && size < WORD_LIMIT && revalidation.Ok?
    ensures Sound(DoResize(r, name, size, revalidation).0.devices)
  {
    var k := Index(r.devices, name);
    if k < |r.devices| {
      ResizeCoversIff(r.devices[k].geo, size, true);
    }
  }

  lemma SizedKeeps(r: Reg, c: Command)
    requires Sound(r.devices) && Enabled(r, c) && Sized(c)
    ensures Sound(Apply(r, c).devices)
  {
    match c
    case Create(name, block, size, s) => CreatedSound(r, name, block, size, s);
    case Resize(name, size, revalidation) => ResizedSound(r, name, size, revalidation);
    case Open(name, tunnel) =>
    case Close(name) =>
    case Remove(name) =>
    case Init(num, fails) =>
    case Exit =>
  }

  // ---- What goes wrong -------------------------------------------------------------------------

  lemma Then(run: seq<Command>, c: Command) returns (more: seq<Command>)
    requires Feasible(run) && Enabled(After(run), c)
    ensures more == run + [c] && Feasible(more) && After(more) == Apply(After(run), c)
  {
    more := run + [c];
    assert more[..|run|] == run;
  }

  lemma SectorBlock()
    ensures SizesOk(512, 0)
  {
    AndOfPower(9);
    assert Pow2(9) == 2 * (2 * (2 * (2 * (2 * (2 * (2 * (2 * Pow2(1)))))))) == 512;
  }

  lemma FreshInNewModule(s: Supply, held: multiset<Res>)
    requires s == Supply(Some(1), Some(1), Ok(1), Ok(2), Ok(()), true, None)
    requires forall x :: x in held <==> x in Base(0)
    ensures Fresh(held, s) && OnlyDiskFails(s)
  {
  }

  lemma NewModule() returns (run: seq<Command>)
    ensures run == [Init(0, 5)] && Feasible(run)
    ensures After(run) == Reg(Some(0), [], multiset{} + Base(0), 0, multiset{})
  {
    run := Then([], Init(0, 5));
  }

  lemma DeviceMade(r: Reg, s: Supply) returns (c: Reg)
    requires r.devices == [] && Outcome(s).Ok?
    ensures c == DoCreate(r, [97], 512, 0, s).0
    ensures |c.devices| == 1 && c.devices[0].name == [97] && c.devices[0].ucnt == 0 && Listed(c.devices)
    ensures DoRemove(c, [97]).1.Ok?
  {
    SectorBlock();
    c := DoCreate(r, [97], 512, 0, s).0;
    CreateCases(r, [97], 512, 0, s);
    RemoveOkIff(c, [97]);
  }

  lemma AllFresh(s: Supply, held: multiset<Res>)
    requires s == Supply(Some(1), Some(1), Ok(1), Ok(2), Ok(()), true, Some(1))
    requires forall x :: x in held <==> x in Base(0)
    ensures Fresh(held, s) && Outcome(s).Ok?
  {
  }

  /** A run that makes a device which a remove would take away again. */
  lemma DeviceComesAndGoes(s: Supply) returns (run: seq<Command>)
    requires s == Supply(Some(1), Some(1), Ok(1), Ok(2), Ok(()), true, Some(1))
    ensures run == [Init(0, 5), Create([97], 512, 0, s)] && Feasible(run)
    ensures |After(run).devices| == 1 && DoRemove(After(run), [97]).1.Ok?
  {
    run := NewModule();
    var r := After(run);
    AllFresh(s, r.held);
    var c := DeviceMade(r, s);
    run := Then(run, Create([97], 512, 0, s));
  }

  lemma DiskFails(r: Reg, s: Supply) returns (c: Reg)
    requires r.devices == [] && OnlyDiskFails(s) && s.region == Ok(2)
    ensures c == DoCreate(r, [97], 512, 0, s).0
    ensures c.control == r.control && c.devices == [] && c.refs == r.refs && c.held == r.held + multiset{Node(2)}
  {
    SectorBlock();
    c := DoCreate(r, [97], 512, 0, s).0;
    CreateCases(r, [97], 512, 0, s);
  }

  /** A module whose only create fails at the disk keeps that node after it is unloaded. */
  lemma NodeOutlivesModule(s: Supply) returns (run: seq<Command>)
    requires s == Supply(Some(1), Some(1), Ok(1), Ok(2), Ok(()), true, None)
    ensures run == [Init(0, 5), Create([97], 512, 0, s), Exit] && Feasible(run)
    ensures After(run).control.None? && After(run).held == multiset{Node(2)}
  {
    run := NewModule();
    var r := After(run);
    FreshInNewModule(s, r.held);
    var c := DiskFails(r, s);
    run := Then(run, Create([97], 512, 0, s));
    run := Then(run, Exit);
    TakeBack(multiset{}, multiset{}, multiset{Node(2)}, Base(0));
  }
}
