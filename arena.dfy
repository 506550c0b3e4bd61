/** The single arena behind a value log, reduced to what this core relies on:
    a byte region of fixed capacity, a reserved prefix, the offset where data
    starts, a bump cursor that only grows, a discarded-bytes counter and the
    arena's own format version. The lock-free machinery, memory maps and file
    handling of the real allocator are not part of this model. */
module Allocator {
  import opened Wrappers
  import opened Bytes
  import opened Errors

  /** The allocator's free-list policy; forwarded, never acted on here. */
  datatype Freelist = NoFreelist | Optimistic | Pessimistic

  /** The allocator's configuration, as the value log builds it. */
  datatype ArenaOptions = ArenaOptions(
    magicVersion: u16,
    reserved: u32,
    unify: bool,
    capacity: Option<u32>,
    freelist: Freelist,
    create: bool,
    createNew: bool,
    read: bool,
    write: bool,
    append: bool,
    truncate: bool,
    offset: u64,
    stack: bool,
    huge: Option<u8>,
    populate: bool)

  /** A snapshot of an arena: its bytes (the length is the capacity), the
      length of the reserved prefix, where data starts, the cursor (the
      allocator's `allocated()`, the end of what has been reserved), the
      discarded counter and the arena's format version. */
  datatype ArenaView = ArenaView(
    mem: seq<u8>,
    reservedLen: nat,
    dataOffset: nat,
    cursor: nat,
    discarded: u32,
    version: u16)
  {
    ghost predicate Valid() {
      reservedLen < dataOffset <= cursor <= |mem| <= U32_MAX
    }
  }

  /** A newly created arena: zeroed memory, data starting one byte after the
      reserved prefix, nothing allocated beyond that. It cannot be created
      when the capacity does not leave room for the reserved prefix and the
      data start. */
  function NewArena(opts: ArenaOptions, defaultCapacity: u32): (r: Result<ArenaView, AllocError>)
    ensures r.Err? <==> opts.capacity.GetOr(defaultCapacity) <= opts.reserved
    ensures r.Err? ==> r.error.available == opts.capacity.GetOr(defaultCapacity)
    ensures r.Ok? ==> && r.value.Valid()
                      && |r.value.mem| == opts.capacity.GetOr(defaultCapacity)
                      && r.value.reservedLen == opts.reserved
                      && r.value.dataOffset == r.value.cursor == opts.reserved + 1
                      && r.value.discarded == 0
                      && r.value.version == opts.magicVersion
                      && (forall i :: 0 <= i < |r.value.mem| ==> r.value.mem[i] == 0)
  {
    var cap := opts.capacity.GetOr(defaultCapacity);
    if cap <= opts.reserved then
      Err(AllocInsufficientSpace(Wrap32(opts.reserved + 1), cap))
    else
      Ok(ArenaView(seq(cap, _ => 0), opts.reserved, opts.reserved + 1, opts.reserved + 1, 0, opts.magicVersion))
  }

  /** `alloc_bytes(k)`: reserve `[cursor, cursor + k)` by bumping the
      cursor, or fail without reserving anything. */
  function AllocBytes(v: ArenaView, k: u32): (r: Result<ArenaView, AllocError>)
    requires v.Valid()
    ensures r.Ok? <==> v.cursor + k <= |v.mem|
    ensures r.Ok? ==> r.value.Valid() && r.value == v.(cursor := v.cursor + k)
    ensures r.Err? ==> r.error == AllocInsufficientSpace(k, |v.mem| - v.cursor)
  {
    if v.cursor + k > |v.mem| then Err(AllocInsufficientSpace(k, |v.mem| - v.cursor))
    else Ok(v.(cursor := v.cursor + k))
  }

  class Arena {
    const mem: array<u8>
    const reservedLen: nat
    const dataOffset: nat
    const version: u16
    var cursor: nat
    var discarded: u32

    ghost predicate Valid()
      reads this
    {
      reservedLen < dataOffset <= cursor <= mem.Length <= U32_MAX
    }

    function View(): (v: ArenaView)
      reads this, mem
      ensures Valid() ==> v.Valid()
    {
      ArenaView(mem[..], reservedLen, dataOffset, cursor, discarded, version)
    }

    constructor FromView(v: ArenaView)
      requires v.Valid()
      ensures Valid() && View() == v && fresh(mem)
    {
      var a := new u8[|v.mem|](i requires 0 <= i < |v.mem| => v.mem[i]);
      mem := a;
      reservedLen := v.reservedLen;
      dataOffset := v.dataOffset;
      version := v.version;
      cursor := v.cursor;
      discarded := v.discarded;
      new;
      assert mem[..] == v.mem;
    }

    /** Create an arena from the allocator options (the allocator's `alloc`). */
    static method Create(opts: ArenaOptions, defaultCapacity: u32) returns (r: Result<Arena, AllocError>)
      ensures NewArena(opts, defaultCapacity).Err? ==> r == Err(NewArena(opts, defaultCapacity).error)
      ensures NewArena(opts, defaultCapacity).Ok? ==>
                r.Ok? && fresh(r.value) && fresh(r.value.mem) && r.value.Valid()
                && r.value.View() == NewArena(opts, defaultCapacity).value
    {
      var created := NewArena(opts, defaultCapacity);
      if created.Err? {
        return Err(created.error);
      }
      var a := new Arena.FromView(created.value);
      return Ok(a);
    }

    /** Bump the cursor by `k` bytes and return where the range starts. */
    method Alloc(k: u32) returns (r: Result<nat, AllocError>)
      requires Valid()
      modifies this
      ensures Valid()
      ensures AllocBytes(old(View()), k).Err? ==>
                r == Err(AllocBytes(old(View()), k).error) && View() == old(View())
      ensures AllocBytes(old(View()), k).Ok? ==>
                r == Ok(old(cursor)) && View() == AllocBytes(old(View()), k).value
    {
      if cursor + k > mem.Length {
        return Err(AllocInsufficientSpace(k, mem.Length - cursor));
      }
      r := Ok(cursor);
      cursor := cursor + k;
    }

    /** `increase_discarded(n)`: a wrapping 32-bit add. */
    method IncreaseDiscarded(n: u32)
      requires Valid()
      modifies this
      ensures Valid()
      ensures View() == old(View()).(discarded := Wrap32(old(discarded) + n))
    {
      discarded := Wrap32(discarded + n);
    }
  }
}
