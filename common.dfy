/** The accessors shared by every log (src/log/common.rs): the user's
    reserved bytes after the header, read-only and writable, and the dump of
    the allocated memory. */
module LogCommon {
  import opened Bytes
  import opened Allocator
  import opened Config
  import opened Logs
  import opened LogReader

  /** `reserved_slice`: empty when the user reserved nothing, otherwise the
      arena's reserved prefix with the header cut off. */
  function ReservedSlice(v: ArenaView, reserved: u32): (s: seq<u8>)
    requires v.Valid() && v.reservedLen == HEADER_SIZE + reserved
    ensures |s| == reserved
    ensures s == v.mem[HEADER_SIZE..HEADER_SIZE + reserved]
    ensures HeaderBytesOf(v) + s == v.mem[..v.reservedLen]
  {
    if reserved == 0 then []
    else
      var prefix := v.mem[..v.reservedLen];
      assert prefix == prefix[..HEADER_SIZE] + prefix[HEADER_SIZE..];
      prefix[HEADER_SIZE..]
  }

  /** The eight header bytes of an arena. */
  function HeaderBytesOf(v: ArenaView): (h: seq<u8>)
    requires |v.mem| >= HEADER_SIZE
    ensures |h| == HEADER_SIZE
  {
    v.mem[..HEADER_SIZE]
  }

  /** `reserved_slice` of a log. */
  function LogReservedSlice<I>(l: ValueLog<I>): (s: seq<u8>)
    reads l, l.arena, l.arena.mem
    requires l.Valid()
    ensures |s| == l.options.reserved
  {
    ReservedSlice(l.arena.View(), l.options.reserved)
  }

  /** `reserved_slice_mut` followed by `copy_from_slice(src)`: the user's
      reserved bytes become `src`; the header, the data and every counter
      stay as they were. */
  method WriteReservedSlice<I>(l: ValueLog<I>, src: seq<u8>)
    requires l.Valid() && |src| == l.options.reserved
    modifies l.arena.mem
    ensures l.Valid()
    ensures l.arena.View() == old(l.arena.View()).(mem := l.arena.mem[..])
    ensures LogReservedSlice(l) == src
    ensures l.arena.mem[..HEADER_SIZE] == old(l.arena.mem[..HEADER_SIZE])
    ensures l.arena.mem[l.arena.reservedLen..] == old(l.arena.mem[l.arena.reservedLen..])
  {
    if l.options.reserved == 0 {
      return;
    }
    CopyFromSlice(l.arena.mem, HEADER_SIZE, src);
    assert l.arena.mem[HEADER_SIZE..HEADER_SIZE + |src|] == src;
  }

  /** Writing the reserved bytes does not change what any read returns:
      they lie before the data start. */
  lemma ReservedWriteKeepsReads(v: ArenaView, src: seq<u8>, reserved: u32, validate: bool, checksum: Checksumer, offset: u32, len: u32)
    requires v.Valid() && v.reservedLen == HEADER_SIZE + reserved && |src| == reserved
    ensures var w := v.(mem := v.mem[..HEADER_SIZE] + src + v.mem[v.reservedLen..]);
            w.Valid() && ReservedSlice(w, reserved) == src &&
            Read(w, validate, checksum, offset, len) == Read(v, validate, checksum, offset, len)
  {
    var w := v.(mem := v.mem[..HEADER_SIZE] + src + v.mem[v.reservedLen..]);
    assert w.mem[HEADER_SIZE..HEADER_SIZE + reserved] == src;
    assert w.mem[v.dataOffset..v.cursor] == v.mem[v.dataOffset..v.cursor] by {
      forall i | v.dataOffset <= i < v.cursor
        ensures w.mem[i] == v.mem[i]
      {
        assert w.mem[i] == w.mem[v.reservedLen..][i - v.reservedLen];
      }
    }
    ReadSeesOnlyData(v, w, validate, checksum, offset, len);
  }

  /** `flush_to`: what is handed to the writer, the allocated memory from
      the arena's first byte up to the cursor. */
  function FlushTo(v: ArenaView): (out: seq<u8>)
    requires v.Valid()
    ensures |out| == v.cursor
    ensures out == v.mem[..v.cursor]
  {
    v.mem[..v.cursor]
  }

  /** Every value a read can return is in the flushed bytes, at its offset:
      a dump written by `flush_to` holds all records. */
  lemma {:induction false} FlushHoldsEveryRecord(v: ArenaView, validate: bool, checksum: Checksumer, offset: u32, len: u32)
    requires v.Valid() && Read(v, validate, checksum, offset, len).Ok?
    ensures offset + len <= |FlushTo(v)|
    ensures Read(v, validate, checksum, offset, len).value == FlushTo(v)[offset..offset + len]
  {
    if !(offset == 0 && len == 0) {
      assert InBounds(v, offset, len);
    }
  }
}
