/** The value log itself (src/log.rs): value pointers, the on-arena record
    layout, and the log object that ties an identifier, an arena, a checksum
    function and the options together. */
module Logs {
  import opened Bytes
  import opened Allocator
  import opened Config

  /** Every record ends in a little-endian u64 checksum. */
  const CHECKSUM_LEN: nat := 8

  /** A checksum algorithm (`checksum_one`), kept uninterpreted. */
  type Checksumer = seq<u8> -> u64

  /** Where a value lives: the log's id, the offset of its first byte and its
      length, which does not count the checksum. */
  datatype ValuePointer<I> = ValuePointer(id: I, offset: u32, size: u32)

  /** The bytes `insert` writes for a value: the value, then its checksum. */
  function Frame(value: seq<u8>, checksum: Checksumer): (r: seq<u8>)
    ensures |r| == |value| + CHECKSUM_LEN
    ensures r[..|value|] == value
    ensures U64FromLe(r[|value|..]) == checksum(value)
  {
    U64RoundTrip(checksum(value));
    var r := value + U64ToLe(checksum(value));
    assert r[|value|..] == U64ToLe(checksum(value));
    r
  }

  /** A record's bytes determine its value: framing is injective. */
  lemma FrameInjective(a: seq<u8>, b: seq<u8>, checksum: Checksumer)
    requires Frame(a, checksum) == Frame(b, checksum)
    ensures a == b
  {
    var fa := Frame(a, checksum);
    assert |a| == |fa| - CHECKSUM_LEN == |b|;
    assert a == fa[..|a|] == b;
  }

  class ValueLog<I> {
    const fid: I
    const arena: Arena
    const checksumer: Checksumer
    const options: Options

    /** The arena is consistent and its reserved prefix is the header
        followed by the user's reserved bytes. */
    ghost predicate Valid()
      reads this, arena
    {
      arena.Valid() && arena.reservedLen == HEADER_SIZE + options.reserved
    }

    /** `construct`: keeps every part exactly as given. */
    constructor Construct(fid: I, arena: Arena, checksumer: Checksumer, options: Options)
      ensures this.fid == fid && this.arena == arena
      ensures this.checksumer == checksumer && this.options == options
    {
      this.fid := fid;
      this.arena := arena;
      this.checksumer := checksumer;
      this.options := options;
    }

    function Id(): I { fid }

    /** `checksum`: the log's checksum function applied to `bytes`; it is the
        value whose encoding ends the record `insert` writes for `bytes`. */
    function Checksum(bytes: seq<u8>): (c: u64)
      ensures U64FromLe(Frame(bytes, checksumer)[|bytes|..]) == c
    {
      checksumer(bytes)
    }

    /** The user's magic version, from the options (not the arena's). */
    function MagicVersion(): u16 { options.magicVersion }

    /** The arena's own format version. */
    function Version(): u16 reads this { arena.version }

    /** Bytes given up by tombstone inserts, as the arena counts them. */
    function Discarded(): u32 reads this, arena { arena.discarded }

    /** Where records start in the arena. */
    function DataOffset(): nat reads this { arena.dataOffset }
  }
}
