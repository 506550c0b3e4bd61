/** The behaviour the crate's documentation examples and unit tests pin
    down (src/log/common.rs, src/tests.rs), stated on the model: each method
    builds a log the way the example does and returns what it observes. */
module Usage {
  import opened Wrappers
  import opened Bytes
  import opened Errors
  import opened Allocator
  import opened Config
  import opened Logs
  import opened LogReader
  import opened LogWriter
  import opened LogCommon
  import opened Builders
  import opened OpenOptions

  /** "Hello, valog!" */
  const HELLO: seq<u8> := [0x48, 0x65, 0x6c, 0x6c, 0x6f, 0x2c, 0x20, 0x76, 0x61, 0x6c, 0x6f, 0x67, 0x21]

  /** "mysanity" */
  const MYSANITY: seq<u8> := [0x6d, 0x79, 0x73, 0x61, 0x6e, 0x69, 0x74, 0x79]

  /** A fresh in-memory log of capacity 100 with default options. */
  method NewLog(crc32: Checksumer, defaultCapacity: u32) returns (log: ValueLog<int>)
    ensures fresh(log) && fresh(log.arena) && fresh(log.arena.mem) && log.Valid()
    ensures log.options == NewOptions().WithCapacity(100) && log.checksumer == crc32 && log.fid == 0
    ensures log.arena.View() == NewBuilder(crc32).WithCapacity(100).AllocView(defaultCapacity).value
    ensures log.arena.cursor == log.arena.dataOffset == 9 && log.arena.discarded == 0 && log.arena.version == 0
    ensures log.arena.mem.Length == 100
  {
    var r := NewBuilder(crc32).WithCapacity(100).Alloc(0, defaultCapacity);
    log := r.value;
  }

  /** Data starts right after the header (9), or after the header and eight
      reserved bytes (17). */
  method DataOffsets(crc32: Checksumer, defaultCapacity: u32) returns (plain: nat, withReserved: nat)
    ensures plain == 9 && withReserved == 17
  {
    var log := NewLog(crc32, defaultCapacity);
    plain := log.DataOffset();
    var r := NewBuilder(crc32).WithCapacity(100).WithReserved(8).Alloc(1, defaultCapacity);
    withReserved := r.value.DataOffset();
  }

  /** The arena's version is the format's own (0) even when the user picks
      magic version 1, which the log reports separately. */
  method Versions(crc32: Checksumer, defaultCapacity: u32) returns (version: u16, magicVersion: u16)
    ensures version == 0 && magicVersion == 1
  {
    var r := NewBuilder(crc32).WithCapacity(100).WithMagicVersion(1).Alloc(1, defaultCapacity);
    version := r.value.Version();
    magicVersion := r.value.MagicVersion();
  }

  /** A tombstone insert of the 13 bytes "Hello, valog!" counts 13 discarded
      bytes; the checksum is not counted. */
  method DiscardedAfterTombstone(crc32: Checksumer, defaultCapacity: u32) returns (before: u32, after: u32)
    ensures before == 0 && after == 13
  {
    var log := NewLog(crc32, defaultCapacity);
    before := log.Discarded();
    var r := InsertTombstone(log, HELLO);
    after := log.Discarded();
  }

  /** A fresh log flushes exactly `data_offset` bytes. */
  method FlushFresh(crc32: Checksumer, defaultCapacity: u32) returns (flushed: seq<u8>, dataOffset: nat)
    ensures |flushed| == dataOffset == 9
  {
    var log := NewLog(crc32, defaultCapacity);
    flushed := log.arena.mem[..log.arena.cursor];
    assert flushed == FlushTo(log.arena.View());
    dataOffset := log.DataOffset();
  }

  /** With eight reserved bytes the reserved slice has length 8, and what
      is copied into it is what it reads back. */
  method ReservedRoundTrip(crc32: Checksumer, defaultCapacity: u32) returns (before: seq<u8>, after: seq<u8>)
    ensures |before| == 8 && after == MYSANITY
  {
    var r := NewBuilder(crc32).WithCapacity(100).WithReserved(8).Alloc(1, defaultCapacity);
    var log := r.value;
    before := ReservedSlice(log.arena.View(), log.options.reserved);
    WriteReservedSlice(log, MYSANITY);
    after := ReservedSlice(log.arena.View(), log.options.reserved);
  }

  /** Reads on a fresh log: `(0, 10)` starts inside the header and
      `(10, 10)` runs past the cursor; both are out of bounds, reported with
      the length including the checksum. */
  method ReadOutOfBounds(crc32: Checksumer, defaultCapacity: u32) returns (first: Result<seq<u8>, Error>, second: Result<seq<u8>, Error>)
    ensures first == Err(OutOfBounds(0, 18, 9, 9))
    ensures second == Err(OutOfBounds(10, 18, 9, 9))
  {
    var log := NewLog(crc32, defaultCapacity);
    first := ReadLog(log, 0, 10);
    second := ReadLog(log, 10, 10);
  }

  /** An empty value is not stored: its pointer is `(0, 0, 0)`. */
  method InsertEmpty(crc32: Checksumer, defaultCapacity: u32) returns (r: Result<ValuePointer<int>, Error>)
    ensures r == Ok(ValuePointer(0, 0, 0))
  {
    var log := NewLog(crc32, defaultCapacity);
    r := Insert(log, []);
  }

  /** Ten bytes are too large when the maximum value size is 3. */
  method InsertBigValue(crc32: Checksumer, defaultCapacity: u32) returns (r: Result<ValuePointer<int>, Error>)
    ensures r == Err(ValueTooLarge(18, 3))
  {
    var b := NewBuilder(crc32).WithCapacity(100).WithMaximumValueSize(3);
    var a := b.Alloc(0, defaultCapacity);
    r := Insert(a.value, seq(10, _ => 0));
  }

  /** A hundred bytes do not fit in an arena of capacity 100 with 91 bytes
      left; the allocator's figures are passed through. */
  method InsertInsufficient(crc32: Checksumer, defaultCapacity: u32) returns (r: Result<ValuePointer<int>, Error>)
    ensures r == Err(InsufficientSpace(108, 91))
  {
    var log := NewLog(crc32, defaultCapacity);
    r := Insert(log, seq(100, _ => 0));
  }

  /** Overwriting the first byte of a stored value with 0 is caught by the
      checksum, provided the CRC-32 of the damaged value differs (as it
      does for a one-byte change). */
  method ChecksumMismatchDetected(crc32: Checksumer, defaultCapacity: u32) returns (r: Result<seq<u8>, Error>)
    requires crc32([0] + HELLO[1..]) != crc32(HELLO)
    ensures r == Err(ChecksumMismatch)
  {
    var log := NewLog(crc32, defaultCapacity);
    var p := Insert(log, HELLO);
    assert p == Ok(ValuePointer(0, 9, 13));
    ghost var before := log.arena.mem[..];
    log.arena.mem[9] := 0;
    assert log.arena.mem[9..22] == [0] + HELLO[1..] by {
      assert before[9..22] == HELLO;
    }
    assert log.arena.mem[22..30] == before[22..30];
    r := ReadLog(log, 9, 13);
  }

  /** Inserts never touch the header, so a file created by `map_mut` still
      passes the header check when it is reopened after any number of
      inserts. */
  lemma {:induction false} InsertKeepsHeader<I, E>(v: ArenaView, id: I, maximum: u32, checksum: Checksumer, vb: ValueBuilder<E>, magicVersion: u16)
    requires v.Valid() && vb.Valid() && v.reservedLen >= HEADER_SIZE
    requires CheckHeader(v.mem[..v.reservedLen], magicVersion) == Ok(magicVersion)
    ensures var w := InsertOutcome(v, id, maximum, checksum, vb).after;
            CheckHeader(w.mem[..w.reservedLen], magicVersion) == Ok(magicVersion)
  {
    var w := InsertOutcome(v, id, maximum, checksum, vb).after;
    assert w.mem[..w.reservedLen] == w.mem[..v.cursor][..v.reservedLen];
    assert v.mem[..v.reservedLen] == v.mem[..v.cursor][..v.reservedLen];
  }
}
