/** Reading a value back (`Reader::read`, src/log/reader.rs): bounds checks
    against the arena's data start and cursor, an optional checksum check,
    and the value bytes without their checksum. */
module LogReader {
  import opened Wrappers
  import opened Bytes
  import opened Errors
  import opened Allocator
  import opened Logs

  /** The whole record `[offset, offset + len + 8)` lies in written data. */
  predicate InBounds(v: ArenaView, offset: nat, len: nat) {
    v.dataOffset <= offset && offset + len + CHECKSUM_LEN <= v.cursor
  }

  /** The checksum stored after the value agrees with the value's checksum. */
  predicate ChecksumHolds(v: ArenaView, checksum: Checksumer, offset: nat, len: nat)
    requires v.Valid() && InBounds(v, offset, len)
  {
    U64FromLe(v.mem[offset + len..offset + len + CHECKSUM_LEN]) == checksum(v.mem[offset..offset + len])
  }

  /** `read(offset, len)` on an arena in state `v`. */
  function Read(v: ArenaView, validate: bool, checksum: Checksumer, offset: u32, len: u32): (r: Result<seq<u8>, Error>)
    requires v.Valid()
    ensures offset == 0 && len == 0 ==> r == Ok([])
    ensures !(offset == 0 && len == 0) ==>
              (r.Ok? <==> InBounds(v, offset, len) && (validate ==> ChecksumHolds(v, checksum, offset, len)))
    ensures !(offset == 0 && len == 0) && r.Ok? ==> r.value == v.mem[offset..offset + len]
    ensures !(offset == 0 && len == 0) && !InBounds(v, offset, len) ==>
              r == Err(OutOfBounds(offset, Wrap32(len + CHECKSUM_LEN), v.dataOffset, v.cursor))
    ensures InBounds(v, offset, len) && r.Err? ==> r == Err(ChecksumMismatch)
  {
    if offset == 0 && len == 0 then Ok([])
    else if offset < v.dataOffset then
      Err(OutOfBounds(offset, Wrap32(len + CHECKSUM_LEN), v.dataOffset, v.cursor))
    else if offset + len + CHECKSUM_LEN > v.cursor then
      Err(OutOfBounds(offset, Wrap32(len + CHECKSUM_LEN), v.dataOffset, v.cursor))
    else
      var buf := v.mem[offset..offset + len + CHECKSUM_LEN];
      assert buf[len..len + CHECKSUM_LEN] == v.mem[offset + len..offset + len + CHECKSUM_LEN];
      assert buf[..len] == v.mem[offset..offset + len];
      if validate && U64FromLe(buf[len..len + CHECKSUM_LEN]) != checksum(buf[..len]) then
        Err(ChecksumMismatch)
      else
        Ok(buf[..len])
  }

  /** A record framed by `insert` at `offset` reads back as its value, with
      or without checksum validation. */
  lemma ReadFramedRecord(v: ArenaView, validate: bool, checksum: Checksumer, offset: u32, value: seq<u8>)
    requires v.Valid() && |value| <= U32_MAX
    requires InBounds(v, offset, |value|)
    requires v.mem[offset..offset + |value| + CHECKSUM_LEN] == Frame(value, checksum)
    ensures Read(v, validate, checksum, offset, |value|) == Ok(value)
  {
    var n := |value|;
    var f := Frame(value, checksum);
    assert v.mem[offset..offset + n] == f[..n] == value;
    assert v.mem[offset + n..offset + n + CHECKSUM_LEN] == f[n..];
  }

  /** Two arenas holding the same record bytes at `offset` read alike there. */
  lemma SameRecordReadsAlike(v: ArenaView, w: ArenaView, validate: bool, checksum: Checksumer, offset: u32, len: u32)
    requires v.Valid() && w.Valid() && !(offset == 0 && len == 0)
    requires InBounds(v, offset, len) && InBounds(w, offset, len)
    requires w.mem[offset..offset + len + CHECKSUM_LEN] == v.mem[offset..offset + len + CHECKSUM_LEN]
    ensures Read(w, validate, checksum, offset, len) == Read(v, validate, checksum, offset, len)
  {
    var e := offset + len + CHECKSUM_LEN;
    forall i | offset <= i < e
      ensures w.mem[i] == v.mem[i]
    {
      assert w.mem[i] == w.mem[offset..e][i - offset];
      assert v.mem[i] == v.mem[offset..e][i - offset];
    }
    assert w.mem[offset..offset + len] == v.mem[offset..offset + len];
    assert w.mem[offset + len..e] == v.mem[offset + len..e];
  }

  /** A successful read depends only on the data start, the cursor and the
      written bytes between them. */
  lemma ReadOnlySeesWrittenBytes(v: ArenaView, w: ArenaView, validate: bool, checksum: Checksumer, offset: u32, len: u32)
    requires v.Valid() && w.Valid()
    requires Read(v, validate, checksum, offset, len).Ok?
    requires w.dataOffset == v.dataOffset && v.cursor <= w.cursor
    requires w.mem[v.dataOffset..v.cursor] == v.mem[v.dataOffset..v.cursor]
    ensures Read(w, validate, checksum, offset, len) == Read(v, validate, checksum, offset, len)
  {
    if !(offset == 0 && len == 0) {
      var d := v.dataOffset;
      var e := offset + len + CHECKSUM_LEN;
      assert InBounds(v, offset, len);
      assert d <= offset && e <= v.cursor;
      assert w.mem[offset..e] == v.mem[offset..e] by {
        forall i | offset <= i < e
          ensures w.mem[i] == v.mem[i]
        {
          assert w.mem[i] == w.mem[d..v.cursor][i - d];
          assert v.mem[i] == v.mem[d..v.cursor][i - d];
        }
      }
      SameRecordReadsAlike(v, w, validate, checksum, offset, len);
    }
  }

  /** A read looks at no byte outside `[data_offset, allocated)`: two
      arenas that differ only in memory outside that range read alike. */
  lemma ReadSeesOnlyData(v: ArenaView, w: ArenaView, validate: bool, checksum: Checksumer, offset: u32, len: u32)
    requires v.Valid() && w == v.(mem := w.mem) && |w.mem| == |v.mem|
    requires w.mem[v.dataOffset..v.cursor] == v.mem[v.dataOffset..v.cursor]
    ensures Read(w, validate, checksum, offset, len) == Read(v, validate, checksum, offset, len)
  {
    if !(offset == 0 && len == 0) && InBounds(v, offset, len) {
      var d := v.dataOffset;
      var e := offset + len + CHECKSUM_LEN;
      assert w.mem[offset..e] == v.mem[offset..e] by {
        forall i | offset <= i < e
          ensures w.mem[i] == v.mem[i]
        {
          assert w.mem[i] == w.mem[d..v.cursor][i - d];
          assert v.mem[i] == v.mem[d..v.cursor][i - d];
        }
      }
      SameRecordReadsAlike(v, w, validate, checksum, offset, len);
    }
  }

  /** `read(offset, len)` on a log: the arena's state, the log's
      `validate_checksum` option and its checksum function. */
  function ReadLog<I>(l: ValueLog<I>, offset: u32, len: u32): (r: Result<seq<u8>, Error>)
    reads l, l.arena, l.arena.mem
    requires l.Valid()
    ensures offset == 0 && len == 0 ==> r == Ok([])
    ensures !(offset == 0 && len == 0) ==>
              (r.Ok? <==> InBounds(l.arena.View(), offset, len)
                          && (l.options.validateChecksum ==> ChecksumHolds(l.arena.View(), l.checksumer, offset, len)))
    ensures !(offset == 0 && len == 0) && r.Ok? ==> r.value == l.arena.mem[offset..offset + len]
  {
    Read(l.arena.View(), l.options.validateChecksum, l.checksumer, offset, len)
  }
}
