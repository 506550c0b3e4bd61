/** The value log's configuration record and its on-arena header
    (src/options.rs, plus the file-open flags that src/options/open_options.rs
    adds to the same record). Setters take the record by value and return
    the updated copy; fields double as the getters. */
module Config {
  import opened Wrappers
  import opened Bytes
  import opened Allocator

  const CURRENT_VERSION: u16 := 0

  /** The ASCII text "valog!". */
  const MAGIC_TEXT: seq<u8> := [0x76, 0x61, 0x6c, 0x6f, 0x67, 0x21]
  const MAGIC_TEXT_SIZE: nat := 6
  const MAGIC_VERSION_SIZE: nat := 2
  const HEADER_SIZE: nat := MAGIC_TEXT_SIZE + MAGIC_VERSION_SIZE

  datatype Options = Options(
    maxValueSize: u32,
    magicVersion: u16,
    capacity: Option<u32>,
    unify: bool,
    freelist: Freelist,
    reserved: u32,
    lockMeta: bool,
    sync: bool,
    validateChecksum: bool,
    createNew: bool,
    create: bool,
    read: bool,
    write: bool,
    append: bool,
    truncate: bool,
    offset: u64,
    stack: bool,
    huge: Option<u8>,
    populate: bool)
  {
    /** `capacity()`: the configured capacity, or 0 when none was set. */
    function Capacity(): (c: u32)
      ensures capacity.Some? ==> c == capacity.value
      ensures capacity.None? ==> c == 0
    {
      match capacity
      case Some(c) => c
      case None => 0
    }

    function WithReserved(reserved: u32): (r: Options)
      ensures r.reserved == reserved && r.(reserved := this.reserved) == this
    { this.(reserved := reserved) }

    function WithSync(sync: bool): (r: Options)
      ensures r.sync == sync && r.(sync := this.sync) == this
    { this.(sync := sync) }

    function WithValidateChecksum(validateChecksum: bool): (r: Options)
      ensures r.validateChecksum == validateChecksum
      ensures r.(validateChecksum := this.validateChecksum) == this
    { this.(validateChecksum := validateChecksum) }

    function WithLockMeta(lockMeta: bool): (r: Options)
      ensures r.lockMeta == lockMeta && r.(lockMeta := this.lockMeta) == this
    { this.(lockMeta := lockMeta) }

    function WithMagicVersion(magicVersion: u16): (r: Options)
      ensures r.magicVersion == magicVersion && r.(magicVersion := this.magicVersion) == this
    { this.(magicVersion := magicVersion) }

    function WithFreelist(freelist: Freelist): (r: Options)
      ensures r.freelist == freelist && r.(freelist := this.freelist) == this
    { this.(freelist := freelist) }

    function WithUnify(unify: bool): (r: Options)
      ensures r.unify == unify && r.(unify := this.unify) == this
    { this.(unify := unify) }

    function WithMaximumValueSize(size: u32): (r: Options)
      ensures r.maxValueSize == size && r.(maxValueSize := this.maxValueSize) == this
    { this.(maxValueSize := size) }

    function WithCapacity(capacity: u32): (r: Options)
      ensures r.Capacity() == capacity && r.capacity == Some(capacity)
      ensures r.(capacity := this.capacity) == this
    { this.(capacity := Some(capacity)) }

    function WithRead(read: bool): (r: Options)
      ensures r.read == read && r.(read := this.read) == this
    { this.(read := read) }

    function WithWrite(write: bool): (r: Options)
      ensures r.write == write && r.(write := this.write) == this
    { this.(write := write) }

    /** Appending implies writing: the write flag is forced on. */
    function WithAppend(append: bool): (r: Options)
      ensures r.append == append && r.write
      ensures r.(append := this.append, write := this.write) == this
    { this.(write := true, append := append) }

    /** Truncating implies writing: the write flag is forced on. */
    function WithTruncate(truncate: bool): (r: Options)
      ensures r.truncate == truncate && r.write
      ensures r.(truncate := this.truncate, write := this.write) == this
    { this.(truncate := truncate, write := true) }

    function WithCreate(create: bool): (r: Options)
      ensures r.create == create && r.(create := this.create) == this
    { this.(create := create) }

    function WithCreateNew(createNew: bool): (r: Options)
      ensures r.createNew == createNew && r.(createNew := this.createNew) == this
    { this.(createNew := createNew) }

    function WithOffset(offset: u64): (r: Options)
      ensures r.offset == offset && r.(offset := this.offset) == this
    { this.(offset := offset) }

    function WithStack(stack: bool): (r: Options)
      ensures r.stack == stack && r.(stack := this.stack) == this
    { this.(stack := stack) }

    function WithHuge(pageBits: Option<u8>): (r: Options)
      ensures r.huge == pageBits && r.(huge := this.huge) == this
    { this.(huge := pageBits) }

    function WithPopulate(populate: bool): (r: Options)
      ensures r.populate == populate && r.(populate := this.populate) == this
    { this.(populate := populate) }

    /** `to_arena_options`: the arena reserves the header in front of the
        user's reserved bytes and records the format version of the log
        itself, never the user's magic version; everything else is passed on. */
    function ToArenaOptions(): (a: ArenaOptions)
      requires reserved <= U32_MAX - HEADER_SIZE
      ensures a.reserved == HEADER_SIZE + reserved
      ensures a.magicVersion == CURRENT_VERSION
      ensures a.unify == unify && a.capacity == capacity && a.freelist == freelist
      ensures a.create == create && a.createNew == createNew && a.read == read
      ensures a.write == write && a.append == append && a.truncate == truncate
      ensures a.offset == offset && a.stack == stack && a.huge == huge
      ensures a.populate == populate
    {
      ArenaOptions(CURRENT_VERSION, HEADER_SIZE + reserved, unify, capacity, freelist,
                   create, createNew, read, write, append, truncate, offset, stack, huge, populate)
    }
  }

  /** `Options::new()`. */
  function NewOptions(): (o: Options)
    ensures o.maxValueSize == U32_MAX && o.capacity == None && o.Capacity() == 0
    ensures o.magicVersion == 0 && o.reserved == 0 && o.freelist == NoFreelist
    ensures !o.unify && !o.lockMeta && o.sync && o.validateChecksum
    ensures !o.createNew && !o.create && !o.read && !o.write && !o.append && !o.truncate
    ensures o.offset == 0 && !o.stack && o.huge == None && !o.populate
  {
    Options(U32_MAX, 0, None, false, NoFreelist, 0, false, true, true,
            false, false, false, false, false, false, 0, false, None, false)
  }

  /** The magic version the user picks does not reach the arena's options. */
  lemma ArenaOptionsIgnoreMagicVersion(o: Options, v: u16)
    requires o.reserved <= U32_MAX - HEADER_SIZE
    ensures o.WithMagicVersion(v).ToArenaOptions() == o.ToArenaOptions()
  {
  }

  /** The eight header bytes: "valog!" and the little-endian version. */
  function HeaderBytes(magicVersion: u16): (h: seq<u8>)
    ensures |h| == HEADER_SIZE
    ensures h[..MAGIC_TEXT_SIZE] == MAGIC_TEXT
    ensures U16FromLe(h[MAGIC_TEXT_SIZE..HEADER_SIZE]) == magicVersion
  {
    U16RoundTrip(magicVersion);
    var h := MAGIC_TEXT + U16ToLe(magicVersion);
    assert h[MAGIC_TEXT_SIZE..HEADER_SIZE] == U16ToLe(magicVersion);
    h
  }

  /** An arena after `write_header` ran on its reserved region. */
  function StampHeader(v: ArenaView, magicVersion: u16): (w: ArenaView)
    requires |v.mem| >= HEADER_SIZE
    ensures |w.mem| == |v.mem| && w.(mem := v.mem) == v
    ensures w.mem[..HEADER_SIZE] == HeaderBytes(magicVersion)
    ensures w.mem[HEADER_SIZE..] == v.mem[HEADER_SIZE..]
  {
    v.(mem := HeaderBytes(magicVersion) + v.mem[HEADER_SIZE..])
  }

  /** `write_header`: the magic text into `[0, 6)`, the version into `[6, 8)`,
      nothing else touched. */
  method WriteHeader(buf: array<u8>, magicVersion: u16)
    requires buf.Length >= HEADER_SIZE
    modifies buf
    ensures buf[..] == HeaderBytes(magicVersion) + old(buf[..])[HEADER_SIZE..]
  {
    CopyFromSlice(buf, 0, MAGIC_TEXT);
    CopyFromSlice(buf, MAGIC_TEXT_SIZE, U16ToLe(magicVersion));
    assert buf[..] == HeaderBytes(magicVersion) + old(buf[..])[HEADER_SIZE..];
  }
}
