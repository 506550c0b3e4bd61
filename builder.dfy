/** The builder a value log is created from (src/options/builder.rs, and
    the file-flag setters src/options/open_options.rs adds to it): options
    plus a checksum function, record-style setters and getters, and `alloc`,
    which creates an in-memory log. */
module Builders {
  import opened Wrappers
  import opened Bytes
  import opened Errors
  import opened Allocator
  import opened Config
  import opened Logs

  datatype Builder = Builder(opts: Options, cks: Checksumer)
  {
    /** `with_checksumer`: a new checksum function, the same options. */
    function WithChecksumer(cks: Checksumer): (r: Builder)
      ensures r.cks == cks && r.opts == opts
    { this.(cks := cks) }

    /** `with_options`: all options replaced, the checksum function kept. */
    function WithOptions(opts: Options): (r: Builder)
      ensures r.opts == opts && r.cks == cks
    { this.(opts := opts) }

    function Reserved(): u32 { opts.reserved }
    function Sync(): bool { opts.sync }
    function LockMeta(): bool { opts.lockMeta }
    function MaximumValueSize(): u32 { opts.maxValueSize }
    function Capacity(): u32 { opts.Capacity() }
    function Unify(): bool { opts.unify }
    function MagicVersion(): u16 { opts.magicVersion }
    function Freelist(): Freelist { opts.freelist }
    function Read(): bool { opts.read }
    function Write(): bool { opts.write }
    function Append(): bool { opts.append }
    function Truncate(): bool { opts.truncate }
    function Create(): bool { opts.create }
    function CreateNew(): bool { opts.createNew }
    function Offset(): u64 { opts.offset }
    function Stack(): bool { opts.stack }
    function Huge(): Option<u8> { opts.huge }
    function Populate(): bool { opts.populate }

    // Each setter changes its own option only; its getter reads it back.

    function WithReserved(reserved: u32): (r: Builder)
      ensures r.Reserved() == reserved && r.(opts := r.opts.(reserved := opts.reserved)) == this
    { this.(opts := opts.WithReserved(reserved)) }

    function WithSync(sync: bool): (r: Builder)
      ensures r.Sync() == sync && r.(opts := r.opts.(sync := opts.sync)) == this
    { this.(opts := opts.WithSync(sync)) }

    function WithLockMeta(lockMeta: bool): (r: Builder)
      ensures r.LockMeta() == lockMeta && r.(opts := r.opts.(lockMeta := opts.lockMeta)) == this
    { this.(opts := opts.WithLockMeta(lockMeta)) }

    function WithMagicVersion(magicVersion: u16): (r: Builder)
      ensures r.MagicVersion() == magicVersion
      ensures r.(opts := r.opts.(magicVersion := opts.magicVersion)) == this
    { this.(opts := opts.WithMagicVersion(magicVersion)) }

    function WithFreelist(freelist: Freelist): (r: Builder)
      ensures r.Freelist() == freelist && r.(opts := r.opts.(freelist := opts.freelist)) == this
    { this.(opts := opts.WithFreelist(freelist)) }

    function WithUnify(unify: bool): (r: Builder)
      ensures r.Unify() == unify && r.(opts := r.opts.(unify := opts.unify)) == this
    { this.(opts := opts.WithUnify(unify)) }

    function WithMaximumValueSize(size: u32): (r: Builder)
      ensures r.MaximumValueSize() == size
      ensures r.(opts := r.opts.(maxValueSize := opts.maxValueSize)) == this
    { this.(opts := opts.WithMaximumValueSize(size)) }

    function WithCapacity(capacity: u32): (r: Builder)
      ensures r.Capacity() == capacity && r.opts.capacity == Some(capacity)
      ensures r.(opts := r.opts.(capacity := opts.capacity)) == this
    { this.(opts := opts.WithCapacity(capacity)) }

    function WithRead(read: bool): (r: Builder)
      ensures r.Read() == read && r.(opts := r.opts.(read := opts.read)) == this
    { this.(opts := opts.WithRead(read)) }

    function WithWrite(write: bool): (r: Builder)
      ensures r.Write() == write && r.(opts := r.opts.(write := opts.write)) == this
    { this.(opts := opts.WithWrite(write)) }

    /** Appending forces write access on. */
    function WithAppend(append: bool): (r: Builder)
      ensures r.Append() == append && r.Write()
      ensures r.(opts := r.opts.(append := opts.append, write := opts.write)) == this
    { this.(opts := opts.WithAppend(append)) }

    /** Truncating forces write access on. */
    function WithTruncate(truncate: bool): (r: Builder)
      ensures r.Truncate() == truncate && r.Write()
      ensures r.(opts := r.opts.(truncate := opts.truncate, write := opts.write)) == this
    { this.(opts := opts.WithTruncate(truncate)) }

    function WithCreate(create: bool): (r: Builder)
      ensures r.Create() == create && r.(opts := r.opts.(create := opts.create)) == this
    { this.(opts := opts.WithCreate(create)) }

    function WithCreateNew(createNew: bool): (r: Builder)
      ensures r.CreateNew() == createNew && r.(opts := r.opts.(createNew := opts.createNew)) == this
    { this.(opts := opts.WithCreateNew(createNew)) }

    function WithOffset(offset: u64): (r: Builder)
      ensures r.Offset() == offset && r.(opts := r.opts.(offset := opts.offset)) == this
    { this.(opts := opts.WithOffset(offset)) }

    function WithStack(stack: bool): (r: Builder)
      ensures r.Stack() == stack && r.(opts := r.opts.(stack := opts.stack)) == this
    { this.(opts := opts.WithStack(stack)) }

    function WithHuge(pageBits: Option<u8>): (r: Builder)
      ensures r.Huge() == pageBits && r.(opts := r.opts.(huge := opts.huge)) == this
    { this.(opts := opts.WithHuge(pageBits)) }

    function WithPopulate(populate: bool): (r: Builder)
      ensures r.Populate() == populate && r.(opts := r.opts.(populate := opts.populate)) == this
    { this.(opts := opts.WithPopulate(populate)) }

    /** The capacity the arena gets: the configured one, or the allocator's
        default when none was set. */
    function ArenaCapacity(defaultCapacity: u32): u32 {
      opts.capacity.GetOr(defaultCapacity)
    }

    /** The arena `alloc` produces, or its error. Creation fails when the
        capacity leaves no room past the header and the user's reserved
        bytes; otherwise memory is zeroed except for the header, which is
        written only when `unify` is set. */
    function AllocView(defaultCapacity: u32): (r: Result<ArenaView, Error>)
      requires opts.reserved <= U32_MAX - HEADER_SIZE
      ensures r.Err? <==> ArenaCapacity(defaultCapacity) <= HEADER_SIZE + opts.reserved
      ensures r.Err? ==> r.error == InsufficientSpace(Wrap32(HEADER_SIZE + opts.reserved + 1), ArenaCapacity(defaultCapacity))
      ensures r.Ok? ==> && r.value.Valid()
                        && |r.value.mem| == ArenaCapacity(defaultCapacity)
                        && r.value.reservedLen == HEADER_SIZE + opts.reserved
                        && r.value.dataOffset == r.value.cursor == HEADER_SIZE + opts.reserved + 1
                        && r.value.discarded == 0
                        && r.value.version == CURRENT_VERSION
      ensures r.Ok? && opts.unify ==> r.value.mem[..HEADER_SIZE] == HeaderBytes(opts.magicVersion)
      ensures r.Ok? && !opts.unify ==> forall i :: 0 <= i < HEADER_SIZE ==> r.value.mem[i] == 0
      ensures r.Ok? ==> forall i :: HEADER_SIZE <= i < |r.value.mem| ==> r.value.mem[i] == 0
    {
      match NewArena(opts.ToArenaOptions(), defaultCapacity)
      case Err(e) => Err(FromInsufficientSpace(e))
      case Ok(v) =>
        if opts.unify then
          var w := StampHeader(v, opts.magicVersion);
          assert forall i :: HEADER_SIZE <= i < |w.mem| ==> w.mem[i] == w.mem[HEADER_SIZE..][i - HEADER_SIZE];
          Ok(w)
        else Ok(v)
    }

    /** `alloc`: create the arena, write the header into its reserved
        region when `unify` is set, and wrap it in a log that keeps the
        builder's options and checksum function. */
    method Alloc<I>(fid: I, defaultCapacity: u32) returns (r: Result<ValueLog<I>, Error>)
      requires opts.reserved <= U32_MAX - HEADER_SIZE
      ensures r.Err? <==> AllocView(defaultCapacity).Err?
      ensures r.Err? ==> r.error == AllocView(defaultCapacity).error
      ensures r.Ok? ==> && fresh(r.value) && fresh(r.value.arena) && fresh(r.value.arena.mem)
                        && r.value.Valid()
                        && r.value.fid == fid && r.value.checksumer == cks && r.value.options == opts
                        && r.value.arena.View() == AllocView(defaultCapacity).value
    {
      var unify := opts.unify;
      var mv := opts.magicVersion;
      var created := Arena.Create(opts.ToArenaOptions(), defaultCapacity);
      if created.Err? {
        return Err(FromInsufficientSpace(created.error));
      }
      var arena := created.value;
      if unify {
        WriteHeader(arena.mem, mv);
      }
      var log := new ValueLog.Construct(fid, arena, cks, opts);
      return Ok(log);
    }
  }

  /** `Builder::new()`: default options and the CRC-32 checksum, which is
      passed in since its algorithm is not part of this model. */
  function NewBuilder(crc32: Checksumer): (b: Builder)
    ensures b.opts == NewOptions() && b.cks == crc32
  {
    Builder(NewOptions(), crc32)
  }
}
