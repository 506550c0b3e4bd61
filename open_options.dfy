/** Opening a log over a memory map (src/options/open_options.rs): the
    header check, and the choice between writing a fresh header and
    validating an existing one. The mapping itself is done by the allocator
    and reaches these methods as a parameter: the arena it produced, or its
    error. */
module OpenOptions {
  import opened Wrappers
  import opened Bytes
  import opened Errors
  import opened Allocator
  import opened Config
  import opened Logs
  import opened Builders

  /** `check_header`: the magic text first, then the version. */
  function CheckHeader(buf: seq<u8>, magicVersion: u16): (r: Result<u16, IoError>)
    requires |buf| >= HEADER_SIZE
    ensures buf[..MAGIC_TEXT_SIZE] != MAGIC_TEXT ==> r == Err(BadMagicText())
    ensures buf[..MAGIC_TEXT_SIZE] == MAGIC_TEXT && U16FromLe(buf[MAGIC_TEXT_SIZE..HEADER_SIZE]) != magicVersion ==>
              r == Err(BadMagicVersion())
    ensures r.Ok? ==> r.value == magicVersion
  {
    if buf[..MAGIC_TEXT_SIZE] != MAGIC_TEXT then Err(BadMagicText())
    else
      var stored := U16FromLe(buf[MAGIC_TEXT_SIZE..HEADER_SIZE]);
      if stored != magicVersion then Err(BadMagicVersion())
      else Ok(stored)
  }

  /** The header check accepts exactly the bytes `write_header` writes. */
  lemma {:induction false} CheckHeaderExact(buf: seq<u8>, magicVersion: u16)
    requires |buf| >= HEADER_SIZE
    ensures CheckHeader(buf, magicVersion).Ok? <==> buf[..HEADER_SIZE] == HeaderBytes(magicVersion)
  {
    var h := HeaderBytes(magicVersion);
    var text := buf[..MAGIC_TEXT_SIZE];
    var version := buf[MAGIC_TEXT_SIZE..HEADER_SIZE];
    assert buf[..HEADER_SIZE] == text + version;
    assert h == h[..MAGIC_TEXT_SIZE] + h[MAGIC_TEXT_SIZE..HEADER_SIZE];
    if buf[..HEADER_SIZE] == h {
      assert text == h[..MAGIC_TEXT_SIZE];
      assert version == h[MAGIC_TEXT_SIZE..HEADER_SIZE];
    }
    if CheckHeader(buf, magicVersion).Ok? {
      U16Inverse(version);
      U16Inverse(h[MAGIC_TEXT_SIZE..HEADER_SIZE]);
    }
  }

  /** Round trip: a buffer starting with a header written for version `v`
      passes the check for `v` and yields `v`; checked for any other
      version it fails with the bad-version error. */
  lemma {:induction false} HeaderRoundTrip(magicVersion: u16, expected: u16, rest: seq<u8>)
    ensures magicVersion == expected ==> CheckHeader(HeaderBytes(magicVersion) + rest, expected) == Ok(magicVersion)
    ensures magicVersion != expected ==> CheckHeader(HeaderBytes(magicVersion) + rest, expected) == Err(BadMagicVersion())
  {
    var buf := HeaderBytes(magicVersion) + rest;
    assert buf[..MAGIC_TEXT_SIZE] == HeaderBytes(magicVersion)[..MAGIC_TEXT_SIZE];
    assert buf[MAGIC_TEXT_SIZE..HEADER_SIZE] == HeaderBytes(magicVersion)[MAGIC_TEXT_SIZE..HEADER_SIZE];
  }

  /** The reserved slice of an arena holds its header: a file whose header
      was stamped for `v` reopens with `v`. */
  lemma StampedArenaReopens(v: ArenaView, magicVersion: u16)
    requires v.Valid() && v.reservedLen >= HEADER_SIZE
    ensures var w := StampHeader(v, magicVersion);
            CheckHeader(w.mem[..w.reservedLen], magicVersion) == Ok(magicVersion)
  {
    var w := StampHeader(v, magicVersion);
    var reserved := w.mem[..w.reservedLen];
    assert reserved == HeaderBytes(magicVersion) + reserved[HEADER_SIZE..];
    HeaderRoundTrip(magicVersion, magicVersion, reserved[HEADER_SIZE..]);
  }

  /** What the allocator hands back for a log's options: a consistent arena
      whose reserved prefix is the header plus the user's reserved bytes. */
  ghost predicate MappedFor(v: ArenaView, opts: Options) {
    v.Valid() && v.reservedLen == HEADER_SIZE + opts.reserved
  }

  /** `map_anon`: an anonymous map; the header is written only when `unify`
      is set, and allocator errors pass through. */
  method MapAnon<I>(b: Builder, fid: I, mapped: Result<ArenaView, IoError>) returns (r: Result<ValueLog<I>, IoError>)
    requires mapped.Ok? ==> MappedFor(mapped.value, b.opts)
    ensures mapped.Err? ==> r == Err(mapped.error)
    ensures mapped.Ok? ==> && r.Ok? && fresh(r.value) && fresh(r.value.arena) && r.value.Valid()
                           && r.value.fid == fid && r.value.checksumer == b.cks && r.value.options == b.opts
                           && r.value.arena.View() == (if b.opts.unify then StampHeader(mapped.value, b.opts.magicVersion) else mapped.value)
  {
    if mapped.Err? {
      return Err(mapped.error);
    }
    var arena := new Arena.FromView(mapped.value);
    if b.opts.unify {
      WriteHeader(arena.mem, b.opts.magicVersion);
    }
    var log := new ValueLog.Construct(fid, arena, b.cks, b.opts);
    return Ok(log);
  }

  /** `map_with_path_builder`: a read-only map of an existing file, whose
      header is always validated. Path-builder errors come back as `Left`,
      allocator errors through `from_arena_io_err` and header errors as they
      are, both as `Right`. */
  method MapWithPathBuilder<I, E>(b: Builder, fid: I, mapped: Result<ArenaView, Either<E, IoError>>)
    returns (r: Result<ValueLog<I>, Either<E, IoError>>)
    requires mapped.Ok? ==> MappedFor(mapped.value, b.opts)
    ensures mapped.Err? && mapped.error.Left? ==> r == Err(mapped.error)
    ensures mapped.Err? && mapped.error.Right? ==> r == Err(Right(FromArenaIoErr(mapped.error.right)))
    ensures mapped.Ok? ==>
              var header := CheckHeader(mapped.value.mem[..mapped.value.reservedLen], b.opts.magicVersion);
              && (header.Err? ==> r == Err(Right(header.error)))
              && (header.Ok? ==> && r.Ok? && fresh(r.value) && fresh(r.value.arena) && r.value.Valid()
                                 && r.value.fid == fid && r.value.checksumer == b.cks && r.value.options == b.opts
                                 && r.value.arena.View() == mapped.value)
  {
    var magicVersion := b.opts.magicVersion;
    if mapped.Err? {
      var e := mapped.error;
      return Err(if e.Left? then e else Right(FromArenaIoErr(e.right)));
    }
    var arena := new Arena.FromView(mapped.value);
    var header := CheckHeader(arena.mem[..arena.reservedLen], magicVersion);
    if header.Err? {
      return Err(Right(header.error));
    }
    var log := new ValueLog.Construct(fid, arena, b.cks, b.opts.WithMagicVersion(magicVersion));
    return Ok(log);
  }

  /** `map`: `map_with_path_builder` with a path that is always available. */
  method Map<I>(b: Builder, fid: I, mapped: Result<ArenaView, IoError>) returns (r: Result<ValueLog<I>, IoError>)
    requires mapped.Ok? ==> MappedFor(mapped.value, b.opts)
    ensures mapped.Err? ==> r == Err(FromArenaIoErr(mapped.error))
    ensures mapped.Ok? ==>
              var header := CheckHeader(mapped.value.mem[..mapped.value.reservedLen], b.opts.magicVersion);
              && (header.Err? ==> r == Err(header.error))
              && (header.Ok? ==> && r.Ok? && fresh(r.value) && fresh(r.value.arena) && r.value.Valid()
                                 && r.value.fid == fid && r.value.checksumer == b.cks && r.value.options == b.opts
                                 && r.value.arena.View() == mapped.value)
  {
    var lifted: Result<ArenaView, Either<(), IoError>> := match mapped
      case Ok(v) => Ok(v)
      case Err(e) => Err(Right(e));
    var outcome := MapWithPathBuilder(b, fid, lifted);
    r := UnwrapRight(outcome);
  }

  /** `map_mut_with_path_builder`: build the path (its error is `Left`),
      note whether the file existed, map it (errors through
      `from_arena_io_err`), then write a fresh header into a new file or
      validate the header of an existing one. */
  method MapMutWithPathBuilder<I, E>(b: Builder, fid: I, pathExisted: Result<bool, E>, mapped: Result<ArenaView, IoError>)
    returns (r: Result<ValueLog<I>, Either<E, IoError>>)
    requires mapped.Ok? ==> MappedFor(mapped.value, b.opts)
    ensures pathExisted.Err? ==> r == Err(Left(pathExisted.error))
    ensures pathExisted.Ok? && mapped.Err? ==> r == Err(Right(FromArenaIoErr(mapped.error)))
    ensures pathExisted.Ok? && mapped.Ok? && !pathExisted.value ==>
              && r.Ok? && fresh(r.value) && fresh(r.value.arena) && r.value.Valid()
              && r.value.fid == fid && r.value.checksumer == b.cks && r.value.options == b.opts
              && r.value.arena.View() == StampHeader(mapped.value, b.opts.magicVersion)
    ensures pathExisted.Ok? && mapped.Ok? && pathExisted.value ==>
              var header := CheckHeader(mapped.value.mem[..mapped.value.reservedLen], b.opts.magicVersion);
              && (header.Err? ==> r == Err(Right(header.error)))
              && (header.Ok? ==> && r.Ok? && fresh(r.value) && fresh(r.value.arena) && r.value.Valid()
                                 && r.value.fid == fid && r.value.checksumer == b.cks && r.value.options == b.opts
                                 && r.value.arena.View() == mapped.value)
  {
    var magicVersion := b.opts.magicVersion;
    if pathExisted.Err? {
      return Err(Left(pathExisted.error));
    }
    var exist := pathExisted.value;
    if mapped.Err? {
      return Err(Right(FromArenaIoErr(mapped.error)));
    }
    var arena := new Arena.FromView(mapped.value);
    if !exist {
      WriteHeader(arena.mem, magicVersion);
    } else {
      var header := CheckHeader(arena.mem[..arena.reservedLen], magicVersion);
      if header.Err? {
        return Err(Right(header.error));
      }
    }
    var log := new ValueLog.Construct(fid, arena, b.cks, b.opts);
    return Ok(log);
  }

  /** `map_mut`: `map_mut_with_path_builder` with a path that is always
      available; `existed` says whether the file was there before. */
  method MapMut<I>(b: Builder, fid: I, existed: bool, mapped: Result<ArenaView, IoError>) returns (r: Result<ValueLog<I>, IoError>)
    requires mapped.Ok? ==> MappedFor(mapped.value, b.opts)
    ensures mapped.Err? ==> r == Err(FromArenaIoErr(mapped.error))
    ensures mapped.Ok? && !existed ==>
              && r.Ok? && fresh(r.value) && fresh(r.value.arena) && r.value.Valid()
              && r.value.fid == fid && r.value.checksumer == b.cks && r.value.options == b.opts
              && r.value.arena.View() == StampHeader(mapped.value, b.opts.magicVersion)
    ensures mapped.Ok? && existed ==>
              var header := CheckHeader(mapped.value.mem[..mapped.value.reservedLen], b.opts.magicVersion);
              && (header.Err? ==> r == Err(header.error))
              && (header.Ok? ==> && r.Ok? && fresh(r.value) && fresh(r.value.arena) && r.value.Valid()
                                 && r.value.fid == fid && r.value.checksumer == b.cks && r.value.options == b.opts
                                 && r.value.arena.View() == mapped.value)
  {
    var outcome := MapMutWithPathBuilder<I, ()>(b, fid, Ok(existed), mapped);
    r := UnwrapRight(outcome);
  }
}
