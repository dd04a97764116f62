/** The control commands in place: the driver's device list and the resources it
    holds, with the rollback of each failed step written out. */
module Registry {
  import opened Common
  import opened Names
  import opened Geometry
  import opened RegistrySpec
  import DeviceSpec

  class Driver {
    var control: Option<nat>
    var devices: seq<Device>
    var held: multiset<Res>
    var refs: int
    ghost var leaked: multiset<Res>

    ghost function State(): Reg
      reads this
    {
      Reg(control, devices, held, refs, leaked)
    }

    /** What is held is what the module and its devices own, and the leaks. */
    ghost predicate Valid()
      reads this
    {
      Conserved(State())
    }

    constructor ()
      ensures Valid() && State() == UNLOADED
    {
      control, devices, held, refs, leaked := None, [], multiset{}, 0, multiset{};
    }

    /** bdtun_find_device; the number of devices if there is none. */
    method Find(name: Name) returns (k: nat)
      ensures k == Index(devices, name)
    {
      k := 0;
      while k < |devices|
        invariant k <= |devices| && forall i :: 0 <= i < k ==> devices[i].name != name
      {
        if devices[k].name == name {
          break;
        }
        k := k + 1;
      }
      IndexIsFirst(devices, name, k);
    }

    method Acquire(x: Res)
      modifies this`held
      ensures held == old(held) + multiset{x}
    {
      held := held + multiset{x};
    }

    /** Gives x back; rest is what else is held. */
    method Release(x: Res, ghost rest: multiset<Res>)
      requires held == rest + multiset{x}
      modifies this`held
      ensures held == rest
    {
      held := held - multiset{x};
    }

    /** bdtun_create_k: what each step acquires is given back, latest first, when a
        later one fails. */
    method Create(name: Name, block: nat, size: nat, s: Supply) returns (res: Result<()>)
      requires Valid() && control.Some?
      modifies this
      ensures Valid()
      ensures (State(), res) == DoCreate(old(State()), name, block, size, s)
    {
      CreateCases(State(), name, block, size, s);
      CreateConserves(State(), name, block, size, s, DoCreate(State(), name, block, size, s).0);
      var k := Find(name);
      IndexIsFirst(devices, name, k);
      if k < |devices| {
        return Err(EEXIST);
      }
      if !(512 <= block <= 4096) || And(block, block - 1) != 0 || size % block != 0 {
        return Err(EINVAL);
      }
      res := Build(name, block, size, s);
      BuiltCreates(old(State()), State(), name, block, size, s);
    }

    method Build(name: Name, block: nat, size: nat, s: Supply) returns (res: Result<()>)
      requires SizesOk(block, size)
      modifies this
      ensures res == Outcome(s) && control == old(control)
      ensures res.Ok? ==>
                var d := NewDevice(name, block, size, s);
                && devices == old(devices) + [d] && refs == old(refs) + 1 && leaked == old(leaked)
                && held == old(held) + Owned(d)
      ensures res.Err? ==>
                && devices == old(devices) && refs == old(refs)
                && held == old(held) + Left(s) && leaked == old(leaked) + Left(s)
    {
      if s.mem.None? {
        return Err(ENOMEM);
      }
      ghost var h, left := held, Left(s);
      Acquire(Mem(s.mem.value));
      label outKfree: {
        if s.queue.None? {
          res := Err(ENOMEM);
          break outKfree;
        }
        Acquire(Queue(s.queue.value));
        label outCleanupQueue: {
          if s.major.Err? {
            res := Err(s.major.errno);
            break outCleanupQueue;
          }
          Acquire(BlockMajor(s.major.value));
          res := BuildTunnel(name, block, size, s);
          if res.Ok? {
            AllOfDevice(h, NewDevice(name, block, size, s));
            return;
          }
          Swap(h + multiset{Mem(s.mem.value)} + multiset{Queue(s.queue.value)}, BlockMajor(s.major.value), left);
          Release(BlockMajor(s.major.value), h + multiset{Mem(s.mem.value)} + multiset{Queue(s.queue.value)} + left);
        }
        Swap(h + multiset{Mem(s.mem.value)}, Queue(s.queue.value), left);
        Release(Queue(s.queue.value), h + multiset{Mem(s.mem.value)} + left);
      }
      Swap(h, Mem(s.mem.value), left);
      Release(Mem(s.mem.value), h + left);
      assert left == multiset{} ==> old(leaked) + left == old(leaked);
    }

    /** The middle of bdtun_create_k: the tunnel's char device. */
    method BuildTunnel(name: Name, block: nat, size: nat, s: Supply) returns (res: Result<()>)
      requires SizesOk(block, size) && s.mem.Some? && s.queue.Some? && s.major.Ok?
      modifies this
      ensures res == Outcome(s) && control == old(control)
      ensures res.Ok? ==>
                var d := NewDevice(name, block, size, s);
                && devices == old(devices) + [d] && refs == old(refs) + 1 && leaked == old(leaked)
                && held == old(held) + multiset{CharRegion(d.num)} + multiset{CharDev(d.mem)}
                           + multiset{Node(d.num)} + multiset{GenDisk(d.disk)}
      ensures res.Err? ==>
                && devices == old(devices) && refs == old(refs)
                && held == old(held) + Left(s) && leaked == old(leaked) + Left(s)
    {
      ghost var h, left := held, Left(s);
      if s.region.Err? {
        return Err(s.region.errno);
      }
      var num := s.region.value;
      Acquire(CharRegion(num));
      label outUnregisterRegion: {
        if s.cdev.Err? {
          res := s.cdev;
          break outUnregisterRegion;
        }
        Acquire(CharDev(s.mem.value));
        res := BuildDisk(name, block, size, s);
        if res.Ok? {
          return;
        }
        Swap(h + multiset{CharRegion(num)}, CharDev(s.mem.value), left);
        Release(CharDev(s.mem.value), h + multiset{CharRegion(num)} + left);
      }
      Swap(h, CharRegion(num), left);
      Release(CharRegion(num), h + left);
    }

    /** The end of bdtun_create_k: the device node and the disk.  There is no label
        between them to give the node back. */
    method BuildDisk(name: Name, block: nat, size: nat, s: Supply) returns (res: Result<()>)
      requires SizesOk(block, size) && s.mem.Some? && s.queue.Some? && s.major.Ok? && s.region.Ok? && s.cdev.Ok?
      modifies this
      ensures res == Outcome(s) && control == old(control)
      ensures res.Ok? ==>
                var d := NewDevice(name, block, size, s);
                && devices == old(devices) + [d] && refs == old(refs) + 1 && leaked == old(leaked)
                && held == old(held) + multiset{Node(d.num)} + multiset{GenDisk(d.disk)}
      ensures res.Err? ==>
                && devices == old(devices) && refs == old(refs)
                && held == old(held) + Left(s) && leaked == old(leaked) + Left(s)
    {
      if !s.node {
        return Err(ENOMEM);
      }
      Acquire(Node(s.region.value));
      if s.disk.None? {
        leaked := leaked + multiset{Node(s.region.value)};
        return Err(ENOMEM);
      }
      Acquire(GenDisk(s.disk.value));
      devices := devices + [NewDevice(name, block, size, s)];
      refs := refs + 1;
      return Ok(());
    }

    /** bdtun_resize_k */
    method Resize(name: Name, size: nat, revalidation: Result<()>) returns (res: Result<()>)
      requires Valid()
      modifies this
      ensures Valid()
      ensures (State(), res) == DoResize(old(State()), name, size, revalidation)
    {
      ResizeConserves(State(), name, size, revalidation, DoResize(State(), name, size, revalidation).0);
      res := SetSizes(name, size, revalidation);
    }

    method SetSizes(name: Name, size: nat, revalidation: Result<()>) returns (res: Result<()>)
      modifies this`devices
      ensures (State(), res) == DoResize(old(State()), name, size, revalidation)
    {
      var k := Find(name);
      if k == |devices| {
        return Err(ENOENT);
      }
      var d := devices[k];
      d := d.(geo := d.geo.(capacity := size / DeviceSpec.SECTOR_SIZE));
      if revalidation.Ok? {
        d := d.(geo := d.geo.(size := size));
      }
      devices := devices[k := d];
      return revalidation;
    }

    /** bdtun_remove_dev; the structure itself is freed by the caller. */
    method Destroy(d: Device, ghost rest: multiset<Res>)
      requires held == rest + Owned(d)
      modifies this`held, this`refs
      ensures held == rest + multiset{Mem(d.mem)} && refs == old(refs) - 1
    {
      ghost var m := rest + multiset{Mem(d.mem)};
      OneByOne(rest, d);
      Release(CharRegion(d.num), m + multiset{GenDisk(d.disk)} + multiset{Queue(d.queue)}
              + multiset{BlockMajor(d.major)} + multiset{Node(d.num)} + multiset{CharDev(d.mem)});
      Release(CharDev(d.mem), m + multiset{GenDisk(d.disk)} + multiset{Queue(d.queue)}
              + multiset{BlockMajor(d.major)} + multiset{Node(d.num)});
      Release(Node(d.num), m + multiset{GenDisk(d.disk)} + multiset{Queue(d.queue)} + multiset{BlockMajor(d.major)});
      Release(BlockMajor(d.major), m + multiset{GenDisk(d.disk)} + multiset{Queue(d.queue)});
      Release(Queue(d.queue), m + multiset{GenDisk(d.disk)});
      Release(GenDisk(d.disk), m);
      refs := refs - 1;
    }

    /** bdtun_open and bdtunch_open */
    method Open(name: Name, tunnel: bool) returns (res: Result<()>)
      requires Valid()
      modifies this`devices
      ensures Valid()
      ensures (State(), res) == DoOpen(old(State()), name, tunnel)
      ensures var k := Index(old(devices), name);
              if k == |old(devices)| then res == Err(ENOENT) && devices == old(devices)
              else if old(devices)[k].removing then
                res == Err(if tunnel then EBUSY else ENOENT) && devices == old(devices)
              else res == Ok(()) && devices[k].ucnt == old(devices)[k].ucnt + 1
    {
      OpenConserves(State(), name, tunnel, DoOpen(State(), name, tunnel).0);
      res := CountOpen(name, tunnel);
    }

    method CountOpen(name: Name, tunnel: bool) returns (res: Result<()>)
      modifies this`devices
      ensures (State(), res) == DoOpen(old(State()), name, tunnel)
    {
      var k := Find(name);
      if k == |devices| {
        return Err(ENOENT);
      }
      var d := devices[k];
      if d.removing {
        return Err(if tunnel then EBUSY else ENOENT);
      }
      devices := devices[k := d.(ucnt := d.ucnt + 1)];
      return Ok(());
    }

    /** The count given up by bdtun_release and bdtunch_release. */
    method Close(name: Name)
      requires Valid() && Index(devices, name) < |devices|
      modifies this`devices
      ensures Valid()
      ensures State() == DoClose(old(State()), name)
      ensures var k := Index(old(devices), name);
              k < |devices| && devices[k].ucnt == old(devices)[k].ucnt - 1
    {
      CloseConserves(State(), name, DoClose(State(), name));
      CountClose(name);
    }

    method CountClose(name: Name)
      requires Index(devices, name) < |devices|
      modifies this`devices
      ensures State() == DoClose(old(State()), name)
    {
      var k := Find(name);
      var d := devices[k];
      devices := devices[k := d.(ucnt := d.ucnt - 1)];
    }

    /** bdtun_remove_k */
    method Remove(name: Name) returns (res: Result<()>)
      requires Valid()
      modifies this
      ensures Valid()
      ensures (State(), res) == DoRemove(old(State()), name)
    {
      RemoveConserves(State(), name, DoRemove(State(), name).0);
      res := RemoveIdle(name);
    }

    method RemoveIdle(name: Name) returns (res: Result<()>)
      requires var k := Index(devices, name); k < |devices| ==> Owned(devices[k]) <= held
      modifies this
      ensures (State(), res) == DoRemove(old(State()), name)
    {
      var k := Find(name);
      if k == |devices| {
        return Err(ENOENT);
      }
      if devices[k].removing {
        return Err(EBUSY);
      }
      if devices[k].ucnt != 0 {
        return Err(EBUSY);
      }
      Unlink(k);
      return Ok(());
    }

    /** Marks the device at position k, destroys it, takes it off the list, and frees
        it. */
    method Unlink(k: nat)
      requires k < |devices| && Owned(devices[k]) <= held
      modifies this
      ensures State() == RemoveAt(old(State()), k)
    {
      var d := devices[k];
      devices := devices[k := d.(removing := true)];
      ghost var rest := held - Owned(d);
      Destroy(d, rest);
      devices := devices[..k] + devices[k + 1..];
      Release(Mem(d.mem), rest);
    }

    /** bdtun_init */
    method Init(num: nat, fails: nat) returns (res: Result<()>)
      requires Valid() && control.None?
      modifies this
      ensures Valid()
      ensures (State(), res) == DoInit(old(State()), num, fails)
    {
      InitConserves(State(), num);
      res := AcquireAll(num, fails);
    }

    method AcquireAll(num: nat, fails: nat) returns (res: Result<()>)
      modifies this`control, this`held
      ensures (State(), res) == DoInit(old(State()), num, fails)
    {
      res := Err(ENOMEM);
      if fails == 0 {
        return;
      }
      ghost var h := held;
      Acquire(WorkQueue);
      label outWorkQueue: {
        if fails == 1 {
          break outWorkQueue;
        }
        Acquire(DeviceClass);
        label outDestroyClass: {
          if fails == 2 {
            break outDestroyClass;
          }
          Acquire(CharRegion(num));
          label outUnregisterRegion: {
            if fails == 3 {
              break outUnregisterRegion;
            }
            Acquire(ControlDev);
            label outCdevDel: {
              if fails == 4 {
                break outCdevDel;
              }
              Acquire(Node(num));
              AllOfBase(h, num);
              control := Some(num);
              return Ok(());
            }
            Release(ControlDev, h + multiset{WorkQueue} + multiset{DeviceClass} + multiset{CharRegion(num)});
          }
          Release(CharRegion(num), h + multiset{WorkQueue} + multiset{DeviceClass});
        }
        Release(DeviceClass, h + multiset{WorkQueue});
      }
      Release(WorkQueue, h);
    }

    /** bdtun_exit.  Nothing refers to the module, so its loop over the devices has
        none to destroy. */
    method Exit()
      requires Valid() && control.Some? && refs == 0
      modifies this
      ensures Valid() && State() == DoExit(old(State())) && devices == []
    {
      ExitKeeps(State());
      ghost var rest := leaked;
      assert held - Base(control.value) == rest && held == rest + Base(control.value);
      ReleaseAll(control.value, rest);
    }

    method ReleaseAll(num: nat, ghost rest: multiset<Res>)
      requires held == rest + Base(num)
      modifies this`control, this`held
      ensures held == rest && control == None
    {
      Unbase(rest, num);
      Release(WorkQueue, rest + multiset{DeviceClass} + multiset{CharRegion(num)} + multiset{ControlDev}
              + multiset{Node(num)});
      Release(Node(num), rest + multiset{DeviceClass} + multiset{CharRegion(num)} + multiset{ControlDev});
      Release(ControlDev, rest + multiset{DeviceClass} + multiset{CharRegion(num)});
      Release(CharRegion(num), rest + multiset{DeviceClass});
      Release(DeviceClass, rest);
      control := None;
    }
  }

  lemma BuiltCreates(r: Reg, c: Reg, name: Name, block: nat, size: nat, s: Supply)
    requires !Named(r.devices, name) && SizesOk(block, size) && c.control == r.control
    requires Outcome(s).Ok? ==>
               var d := NewDevice(name, block, size, s);
               && c.devices == r.devices + [d] && c.refs == r.refs + 1 && c.leaked == r.leaked
               && c.held == r.held + Owned(d)
    requires Outcome(s).Err? ==>
               && c.devices == r.devices && c.refs == r.refs
               && c.held == r.held + Left(s) && c.leaked == r.leaked + Left(s)
    ensures DoCreate(r, name, block, size, s) == (c, Outcome(s))
  {
    assert r.held + multiset{} == r.held && r.leaked + multiset{} == r.leaked;
  }

  /** What a failed create leaves behind. */
  function Left(s: Supply): multiset<Res> {
    if OnlyDiskFails(s) then multiset{Node(s.region.value)} else multiset{}
  }

  lemma Swap(h: multiset<Res>, x: Res, left: multiset<Res>)
    ensures h + multiset{x} + left == h + left + multiset{x}
  {
  }

  lemma OneByOne(h: multiset<Res>, d: Device)
    ensures h + multiset{Mem(d.mem)} + multiset{GenDisk(d.disk)} + multiset{Queue(d.queue)}
              + multiset{BlockMajor(d.major)} + multiset{Node(d.num)} + multiset{CharDev(d.mem)}
              + multiset{CharRegion(d.num)}
            == h + Owned(d)
  {
  }

  lemma AllOfDevice(h: multiset<Res>, d: Device)
    ensures h + multiset{Mem(d.mem)} + multiset{Queue(d.queue)} + multiset{BlockMajor(d.major)}
              + multiset{CharRegion(d.num)} + multiset{CharDev(d.mem)} + multiset{Node(d.num)}
              + multiset{GenDisk(d.disk)}
            == h + Owned(d)
  {
  }

  lemma AllOfBase(h: multiset<Res>, num: nat)
    ensures h + multiset{WorkQueue} + multiset{DeviceClass} + multiset{CharRegion(num)} + multiset{ControlDev}
              + multiset{Node(num)}
            == h + Base(num)
  {
  }

  lemma Unbase(h: multiset<Res>, num: nat)
    ensures h + multiset{DeviceClass} + multiset{CharRegion(num)} + multiset{ControlDev} + multiset{Node(num)}
              + multiset{WorkQueue}
            == h + Base(num)
  {
  }
}
