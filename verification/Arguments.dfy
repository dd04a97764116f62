/** The utility's option parser: what it lets through to the driver. */
module Arguments {
  import opened Common
  import opened Segments
  import opened Names
  import opened Words
  import opened Geometry
  import opened DeviceSpec

  datatype Command = CREATE | REMOVE | RESIZE | LIST | INFO

  datatype Feature = FLUSH | FUA | DISCARD | SECURE

  /** One option, or an argument that is none; the numbers are what strtoll made of the
      text, and whether it used all of it. */
  datatype Key =
    | Command(c: Command)
    | Feature(feature: Feature)
    | Stray
    | Name(name: Name)
    | Size(value: int, whole: bool)
    | BlockSize(value: int, whole: bool)

  /** A signed number stored in 64 unsigned bits. */
  function Unsigned(v: int): (u: nat)
    ensures u < WORD_LIMIT && (u - v) % WORD_LIMIT == 0
  {
    v % WORD_LIMIT
  }

  /** What the parser does not refuse. */
  predicate Acceptable(key: Key) {
    match key
    case Command(_) => true
    case Feature(_) => true
    case Stray => false
    case Name(n) => |n| < NAME_SIZE
    case Size(v, whole) => whole && Unsigned(v) != 0
    case BlockSize(v, whole) => whole && SizesOk(Unsigned(v), 0)
  }

  // What a command line says: of each kind of option, the last.

  function LastCommand(keys: seq<Key>): Command {
    if keys == [] then CREATE
    else var last := keys[|keys| - 1]; if last.Command? then last.c else LastCommand(keys[..|keys| - 1])
  }

  function LastName(keys: seq<Key>): Option<Name> {
    if keys == [] then None
    else var last := keys[|keys| - 1]; if last.Name? then Some(last.name) else LastName(keys[..|keys| - 1])
  }

  function LastSize(keys: seq<Key>): nat {
    if keys == [] then 0
    else var last := keys[|keys| - 1]; if last.Size? then Unsigned(last.value) else LastSize(keys[..|keys| - 1])
  }

  function LastBlock(keys: seq<Key>): nat {
    if keys == [] then 0
    else var last := keys[|keys| - 1]; if last.BlockSize? then Unsigned(last.value) else LastBlock(keys[..|keys| - 1])
  }

  function Asked(keys: seq<Key>): set<Feature> {
    set k | 0 <= k < |keys| && keys[k].Feature? :: keys[k].feature
  }

  /** What each command needs. */
  predicate Sufficient(c: Command, name: Option<Name>, size: nat, blocksize: nat) {
    match c
    case CREATE => name.Some? && size > 0 && SizesOk(blocksize, size)
    case RESIZE => name.Some? && size > 0
    case REMOVE => name.Some?
    case INFO => name.Some?
    case LIST => true
  }

  class Args {
    var command: Command
    var name: Option<Name>
    var size: nat
    var blocksize: nat
    var features: set<Feature>

    constructor ()
      ensures command == CREATE && name == None && size == 0 && blocksize == 0 && features == {}
    {
      command, name, size, blocksize, features := CREATE, None, 0, 0, {};
    }

    /** Every value stored has passed its own check. */
    predicate Checked()
      reads this
    {
      && (name.Some? ==> |name.value| < NAME_SIZE)
      && size < WORD_LIMIT
      && (blocksize != 0 ==> SECTOR_SIZE <= blocksize <= PAGE_SIZE && And(blocksize, blocksize - 1) == 0)
    }

    /** parse_opt for one option; false when it reports an error. */
    method Option(key: Key) returns (ok: bool)
      requires Checked()
      modifies this
      ensures Checked()
      ensures ok <==> Acceptable(key)
      ensures command == (if key.Command? then key.c else old(command))
      ensures name == (if ok && key.Name? then Some(key.name) else old(name))
      ensures size == (if ok && key.Size? then Unsigned(key.value) else old(size))
      ensures features == (if key.Feature? then old(features) + {key.feature} else old(features))
      ensures blocksize == (if ok && key.BlockSize? then Unsigned(key.value) else old(blocksize))
    {
      ok := true;
      match key
      case Command(c) => command := c;
      case Feature(f) => features := features + {f};
      case Stray => return false;
      case Name(n) =>
        if |n| >= NAME_SIZE {
          return false;
        }
        name := Some(n);
      case Size(v, whole) =>
        if !whole || Unsigned(v) < 1 {
          return false;
        }
        size := Unsigned(v);
      case BlockSize(v, whole) =>
        var block := Unsigned(v);
        if !whole || block < 512 || block > 4096 || And(block, block - 1) != 0 {
          return false;
        }
        blocksize := block;
    }

    /** parse_opt at the end of the command line. */
    method Success() returns (ok: bool)
      requires Checked()
      ensures ok <==> Sufficient(command, name, size, blocksize)
    {
      if command == CREATE {
        if name == None || size == 0 || blocksize == 0 || size % blocksize != 0 {
          return false;
        }
      }
      if command == RESIZE && (name == None || size == 0) {
        return false;
      }
      if (command == REMOVE || command == INFO) && name == None {
        return false;
      }
      return true;
    }
  }

  /** What is stored after some of the options is what they say. */
  ghost predicate Says(keys: seq<Key>, args: Args)
    reads args
  {
    && args.command == LastCommand(keys) && args.name == LastName(keys)
    && args.size == LastSize(keys) && args.blocksize == LastBlock(keys) && args.features == Asked(keys)
  }

  /** One option more. */
  lemma SaysMore(keys: seq<Key>, i: nat)
    requires i < |keys|
    ensures var key, some, more := keys[i], keys[..i], keys[..i + 1];
            && LastCommand(more) == (if key.Command? then key.c else LastCommand(some))
            && LastName(more) == (if key.Name? then Some(key.name) else LastName(some))
            && LastSize(more) == (if key.Size? then Unsigned(key.value) else LastSize(some))
            && LastBlock(more) == (if key.BlockSize? then Unsigned(key.value) else LastBlock(some))
            && Asked(more) == if key.Feature? then Asked(some) + {key.feature} else Asked(some)
  {
    var some, more := keys[..i], keys[..i + 1];
    assert more[..|more| - 1] == some && more[|more| - 1] == keys[i];
    forall f | f in Asked(some) ensures f in Asked(more) {
      var k :| 0 <= k < |some| && some[k].Feature? && some[k].feature == f;
      assert more[k].Feature? && more[k].feature == f;
    }
  }

  /** A whole command line is let through exactly when each option is acceptable and the
      command has what it needs, and is read as its last option of each kind says.  A
      create that is let through passes the driver's own size checks. */
  method ParseAll(keys: seq<Key>) returns (ok: bool, args: Args)
    ensures fresh(args)
    ensures ok <==> (forall k :: 0 <= k < |keys| ==> Acceptable(keys[k]))
                    && Sufficient(LastCommand(keys), LastName(keys), LastSize(keys), LastBlock(keys))
    ensures ok ==> Says(keys, args)
    ensures ok && args.command == CREATE ==>
              args.name.Some? && |args.name.value| < NAME_SIZE && 0 < args.size < WORD_LIMIT
              && SizesOk(args.blocksize, args.size)
    ensures ok && args.command != LIST ==> args.name.Some? && |args.name.value| < NAME_SIZE
  {
    args := new Args();
    ok := true;
    var i := 0;
    while i < |keys|
      invariant i <= |keys| && fresh(args) && args.Checked()
      invariant forall k :: 0 <= k < i ==> Acceptable(keys[k])
      invariant Says(keys[..i], args)
    {
      ok := args.Option(keys[i]);
      if !ok {
        return;
      }
      SaysMore(keys, i);
      i := i + 1;
    }
    assert keys[..i] == keys;
    ok := args.Success();
  }
}
