/** Writing values (src/log/writer.rs): the size checks, the reservation of
    `len + 8` bytes, the in-place framing of value and checksum, and the
    tombstone variants that also count the value's bytes as discarded. */
module LogWriter {
  import opened Wrappers
  import opened Bytes
  import opened Errors
  import opened Allocator
  import opened Logs
  import opened LogReader

  /** A value built in place: its size is known before any space is
      reserved; building either yields exactly that many bytes or fails
      with the builder's own error. */
  datatype ValueBuilder<E> = ValueBuilder(size: nat, build: Result<seq<u8>, E>) {
    predicate Valid() {
      build.Ok? ==> |build.value| == size
    }
  }

  /** The builder `insert` makes for a byte string; it cannot fail. */
  function BytesBuilder(value: seq<u8>): (vb: ValueBuilder<()>)
    ensures vb.Valid() && vb.size == |value| && vb.build == Ok(value)
  {
    ValueBuilder(|value|, Ok(value))
  }

  /** A value type's encoding capability: the encoded length, the encoder
      (which may fail) and the decoder. */
  datatype Codec<!T, E> = Codec(encodedLen: T -> nat, encode: T -> Result<seq<u8>, E>, decode: seq<u8> -> T) {
    /** The encoder writes exactly the advertised number of bytes for `x`. */
    predicate Encodes(x: T) {
      encode(x).Ok? ==> |encode(x).value| == encodedLen(x)
    }
  }

  /** The builder `insert_generic` makes: `encoded_len` bytes filled by
      `encode_to_buffer`. */
  function EncodedBuilder<T, E>(codec: Codec<T, E>, value: T): (vb: ValueBuilder<E>)
    requires codec.Encodes(value)
    ensures vb.Valid() && vb.size == codec.encodedLen(value) && vb.build == codec.encode(value)
  {
    ValueBuilder(codec.encodedLen(value), codec.encode(value))
  }

  /** What an insert returns and the arena it leaves behind. */
  datatype Outcome<I, E> = Outcome(result: Result<ValuePointer<I>, Either<E, Error>>, after: ArenaView)

  /** The value is small enough for `max_value_size` once framed. */
  predicate FitsMaximum(size: nat, maximum: u32) {
    size + CHECKSUM_LEN <= maximum
  }

  /** The arena has room for the framed value. */
  predicate HasRoom(v: ArenaView, size: nat) {
    v.cursor + size + CHECKSUM_LEN <= |v.mem|
  }

  /** `insert_in` on an arena in state `v`, for a log with identifier `id`,
      maximum value size `maximum` and checksum function `checksum`. */
  function InsertOutcome<I, E>(v: ArenaView, id: I, maximum: u32, checksum: Checksumer, vb: ValueBuilder<E>): (o: Outcome<I, E>)
    requires v.Valid() && vb.Valid()
    // the arena stays consistent, only grows, and never loses a written byte
    ensures o.after.Valid() && |o.after.mem| == |v.mem|
    ensures o.after.(mem := v.mem, cursor := v.cursor) == v
    ensures v.cursor <= o.after.cursor
    ensures o.after.mem[..v.cursor] == v.mem[..v.cursor]
    // when it succeeds
    ensures o.result.Ok? <==> vb.size == 0 || (FitsMaximum(vb.size, maximum) && HasRoom(v, vb.size) && vb.build.Ok?)
    ensures vb.size == 0 ==> o == Outcome(Ok(ValuePointer(id, 0, 0)), v)
    ensures o.result.Ok? && vb.size > 0 ==>
              && o.result.value == ValuePointer(id, v.cursor, vb.size)
              && o.after.cursor == v.cursor + vb.size + CHECKSUM_LEN
              && o.after.mem[v.cursor..o.after.cursor] == Frame(vb.build.value, checksum)
              && o.after.mem[o.after.cursor..] == v.mem[o.after.cursor..]
    // how it fails
    ensures vb.size > 0 && !FitsMaximum(vb.size, maximum) ==>
              o == Outcome(Err(Right(ValueTooLarge(vb.size + CHECKSUM_LEN, maximum))), v)
    ensures vb.size > 0 && FitsMaximum(vb.size, maximum) && !HasRoom(v, vb.size) ==>
              o == Outcome(Err(Right(InsufficientSpace(vb.size + CHECKSUM_LEN, |v.mem| - v.cursor))), v)
    ensures vb.size > 0 && FitsMaximum(vb.size, maximum) && HasRoom(v, vb.size) && vb.build.Err? ==>
              o == Outcome(Err(Left(vb.build.error)), v.(cursor := v.cursor + vb.size + CHECKSUM_LEN))
  {
    if vb.size == 0 then Outcome(Ok(ValuePointer(id, 0, 0)), v)
    else
      var len := vb.size + CHECKSUM_LEN;
      if len > maximum then Outcome(Err(Right(ValueTooLarge(len, maximum))), v)
      else
        match AllocBytes(v, len)
        case Err(e) => Outcome(Err(Right(FromInsufficientSpace(e))), v)
        case Ok(reserved) =>
          match vb.build
          case Err(e) => Outcome(Err(Left(e)), reserved)
          case Ok(value) =>
            var off := v.cursor;
            var mem := v.mem[..off] + Frame(value, checksum) + v.mem[off + len..];
            assert mem[..off] == v.mem[..off];
            assert mem[off..off + len] == Frame(value, checksum);
            assert mem[off + len..] == v.mem[off + len..];
            Outcome(Ok(ValuePointer(id, off, vb.size)), reserved.(mem := mem))
  }

  /** The tombstone variants: the same outcome as a plain insert, except that
      a successful insert also adds the value's length (not the checksum) to
      the arena's discarded counter, wrapping at 32 bits. */
  function InsertTombstoneOutcome<I, E>(v: ArenaView, id: I, maximum: u32, checksum: Checksumer, vb: ValueBuilder<E>): (o: Outcome<I, E>)
    requires v.Valid() && vb.Valid()
    ensures o.result == InsertOutcome(v, id, maximum, checksum, vb).result
    ensures o.after.(discarded := v.discarded) == InsertOutcome(v, id, maximum, checksum, vb).after
    ensures o.after.discarded == if o.result.Ok? then Wrap32(v.discarded + Wrap32(vb.size)) else v.discarded
  {
    var o := InsertOutcome(v, id, maximum, checksum, vb);
    if o.result.Ok? then o.(after := o.after.(discarded := Wrap32(o.after.discarded + Wrap32(vb.size))))
    else o
  }

  /** Round trip: reading back the pointer an insert returned yields the
      inserted bytes, whether or not checksums are validated. */
  lemma InsertThenRead<I, E>(v: ArenaView, id: I, maximum: u32, checksum: Checksumer, vb: ValueBuilder<E>, validate: bool)
    requires v.Valid() && vb.Valid() && vb.build.Ok?
    requires InsertOutcome(v, id, maximum, checksum, vb).result.Ok?
    ensures var o := InsertOutcome(v, id, maximum, checksum, vb);
            Read(o.after, validate, checksum, o.result.value.offset, o.result.value.size) == Ok(vb.build.value)
  {
    var o := InsertOutcome(v, id, maximum, checksum, vb);
    var p := o.result.value;
    if vb.size > 0 {
      assert o.after.mem[p.offset..p.offset + p.size + CHECKSUM_LEN] == Frame(vb.build.value, checksum);
      ReadFramedRecord(o.after, validate, checksum, p.offset, vb.build.value);
    }
  }

  /** An insert, successful or not, never changes what an earlier successful
      read returned: records already written stay readable and intact. */
  lemma InsertKeepsEarlierReads<I, E>(v: ArenaView, id: I, maximum: u32, checksum: Checksumer, vb: ValueBuilder<E>,
                                      validate: bool, offset: u32, len: u32)
    requires v.Valid() && vb.Valid()
    requires Read(v, validate, checksum, offset, len).Ok?
    ensures var o := InsertOutcome(v, id, maximum, checksum, vb);
            Read(o.after, validate, checksum, offset, len) == Read(v, validate, checksum, offset, len)
  {
    var o := InsertOutcome(v, id, maximum, checksum, vb);
    assert o.after.mem[v.dataOffset..v.cursor] == o.after.mem[..v.cursor][v.dataOffset..];
    assert v.mem[v.dataOffset..v.cursor] == v.mem[..v.cursor][v.dataOffset..];
    ReadOnlySeesWrittenBytes(v, o.after, validate, checksum, offset, len);
  }

  /** Two successful non-empty inserts in a row occupy adjacent ranges: the
      second record starts right after the first one's checksum, so
      reservations never overlap and leave no gap. */
  lemma SuccessiveInsertsAdjacent<I, E>(v: ArenaView, id: I, maximum: u32, checksum: Checksumer,
                                        vb1: ValueBuilder<E>, vb2: ValueBuilder<E>)
    requires v.Valid() && vb1.Valid() && vb2.Valid() && vb1.size > 0 && vb2.size > 0
    requires InsertOutcome(v, id, maximum, checksum, vb1).result.Ok?
    requires InsertOutcome(InsertOutcome(v, id, maximum, checksum, vb1).after, id, maximum, checksum, vb2).result.Ok?
    ensures var o1 := InsertOutcome(v, id, maximum, checksum, vb1);
            var o2 := InsertOutcome(o1.after, id, maximum, checksum, vb2);
            && v.dataOffset <= o1.result.value.offset
            && o2.result.value.offset == o1.result.value.offset + o1.result.value.size + CHECKSUM_LEN
            && o2.after.cursor == o2.result.value.offset + o2.result.value.size + CHECKSUM_LEN
  {
  }

  /** `insert_in`: check, reserve, fill the value in place, append its
      checksum, return the pointer. */
  method InsertIn<I, E>(l: ValueLog<I>, vb: ValueBuilder<E>) returns (r: Result<ValuePointer<I>, Either<E, Error>>)
    requires l.Valid() && vb.Valid()
    modifies l.arena, l.arena.mem
    ensures l.Valid()
    ensures r == InsertOutcome(old(l.arena.View()), l.fid, l.options.maxValueSize, l.checksumer, vb).result
    ensures l.arena.View() == InsertOutcome(old(l.arena.View()), l.fid, l.options.maxValueSize, l.checksumer, vb).after
  {
    ghost var v := l.arena.View();
    if vb.size == 0 {
      return Ok(ValuePointer(l.fid, 0, 0));
    }
    var maximum := l.options.maxValueSize;
    var len := vb.size + CHECKSUM_LEN;
    if len > maximum {
      return Err(Right(ValueTooLarge(len, maximum)));
    }
    var reserved := l.arena.Alloc(len);
    if reserved.Err? {
      return Err(Right(FromInsufficientSpace(reserved.error)));
    }
    var begin := reserved.value;
    match vb.build {
      case Err(e) =>
        return Err(Left(e));
      case Ok(value) =>
        CopyFromSlice(l.arena.mem, begin, value);
        ghost var m1 := l.arena.mem[..];
        assert l.arena.mem[begin..begin + vb.size] == value;
        var checksum := l.Checksum(l.arena.mem[begin..begin + vb.size]);
        CopyFromSlice(l.arena.mem, begin + vb.size, U64ToLe(checksum));
        assert l.arena.mem[..] == v.mem[..begin] + Frame(value, l.checksumer) + v.mem[begin + len..] by {
          assert m1[..begin + vb.size] == v.mem[..begin] + value;
          assert m1[begin + len..] == v.mem[begin + len..];
        }
        return Ok(ValuePointer(l.fid, begin, vb.size));
    }
  }

  /** `LogWriter::insert`: insert a byte string. Reading the returned
      pointer back yields the same bytes. */
  method Insert<I>(l: ValueLog<I>, value: seq<u8>) returns (r: Result<ValuePointer<I>, Error>)
    requires l.Valid()
    modifies l.arena, l.arena.mem
    ensures l.Valid()
    ensures r == UnwrapRight(InsertOutcome(old(l.arena.View()), l.fid, l.options.maxValueSize, l.checksumer, BytesBuilder(value)).result)
    ensures l.arena.View() == InsertOutcome(old(l.arena.View()), l.fid, l.options.maxValueSize, l.checksumer, BytesBuilder(value)).after
    ensures r.Ok? ==> ReadLog(l, r.value.offset, r.value.size) == Ok(value)
  {
    ghost var v := l.arena.View();
    var res := InsertIn(l, BytesBuilder(value));
    r := UnwrapRight(res);
    if r.Ok? {
      InsertThenRead(v, l.fid, l.options.maxValueSize, l.checksumer, BytesBuilder(value), l.options.validateChecksum);
    }
  }

  /** `LogWriter::insert_tombstone`. */
  method InsertTombstone<I>(l: ValueLog<I>, value: seq<u8>) returns (r: Result<ValuePointer<I>, Error>)
    requires l.Valid()
    modifies l.arena, l.arena.mem
    ensures l.Valid()
    ensures r == UnwrapRight(InsertTombstoneOutcome(old(l.arena.View()), l.fid, l.options.maxValueSize, l.checksumer, BytesBuilder(value)).result)
    ensures l.arena.View() == InsertTombstoneOutcome(old(l.arena.View()), l.fid, l.options.maxValueSize, l.checksumer, BytesBuilder(value)).after
  {
    r := Insert(l, value);
    if r.Ok? {
      l.arena.IncreaseDiscarded(Wrap32(|value|));
    }
  }

  /** `insert_with`: insert a value built in place. */
  method InsertWith<I, E>(l: ValueLog<I>, vb: ValueBuilder<E>) returns (r: Result<ValuePointer<I>, Either<E, Error>>)
    requires l.Valid() && vb.Valid()
    modifies l.arena, l.arena.mem
    ensures l.Valid()
    ensures r == InsertOutcome(old(l.arena.View()), l.fid, l.options.maxValueSize, l.checksumer, vb).result
    ensures l.arena.View() == InsertOutcome(old(l.arena.View()), l.fid, l.options.maxValueSize, l.checksumer, vb).after
    ensures r.Ok? && vb.build.Ok? ==> ReadLog(l, r.value.offset, r.value.size) == Ok(vb.build.value)
  {
    ghost var v := l.arena.View();
    r := InsertIn(l, vb);
    if r.Ok? && vb.build.Ok? {
      InsertThenRead(v, l.fid, l.options.maxValueSize, l.checksumer, vb, l.options.validateChecksum);
    }
  }

  /** `insert_tombstone_with`. */
  method InsertTombstoneWith<I, E>(l: ValueLog<I>, vb: ValueBuilder<E>) returns (r: Result<ValuePointer<I>, Either<E, Error>>)
    requires l.Valid() && vb.Valid()
    modifies l.arena, l.arena.mem
    ensures l.Valid()
    ensures r == InsertTombstoneOutcome(old(l.arena.View()), l.fid, l.options.maxValueSize, l.checksumer, vb).result
    ensures l.arena.View() == InsertTombstoneOutcome(old(l.arena.View()), l.fid, l.options.maxValueSize, l.checksumer, vb).after
  {
    var encodedLen := vb.size;
    r := InsertIn(l, vb);
    if r.Ok? {
      l.arena.IncreaseDiscarded(Wrap32(encodedLen));
    }
  }

  /** `insert_generic`: reserve `encoded_len` payload bytes and fill them
      with the encoder. */
  method InsertGeneric<I, T, E>(l: ValueLog<I>, codec: Codec<T, E>, value: T) returns (r: Result<ValuePointer<I>, Either<E, Error>>)
    requires l.Valid() && codec.Encodes(value)
    modifies l.arena, l.arena.mem
    ensures l.Valid()
    ensures r == InsertOutcome(old(l.arena.View()), l.fid, l.options.maxValueSize, l.checksumer, EncodedBuilder(codec, value)).result
    ensures l.arena.View() == InsertOutcome(old(l.arena.View()), l.fid, l.options.maxValueSize, l.checksumer, EncodedBuilder(codec, value)).after
    ensures r.Ok? && codec.encode(value).Ok? ==> ReadLog(l, r.value.offset, r.value.size) == Ok(codec.encode(value).value)
  {
    r := InsertWith(l, EncodedBuilder(codec, value));
  }

  /** `insert_generic_tombstone`. */
  method InsertGenericTombstone<I, T, E>(l: ValueLog<I>, codec: Codec<T, E>, value: T) returns (r: Result<ValuePointer<I>, Either<E, Error>>)
    requires l.Valid() && codec.Encodes(value)
    modifies l.arena, l.arena.mem
    ensures l.Valid()
    ensures r == InsertTombstoneOutcome(old(l.arena.View()), l.fid, l.options.maxValueSize, l.checksumer, EncodedBuilder(codec, value)).result
    ensures l.arena.View() == InsertTombstoneOutcome(old(l.arena.View()), l.fid, l.options.maxValueSize, l.checksumer, EncodedBuilder(codec, value)).after
  {
    r := InsertTombstoneWith(l, EncodedBuilder(codec, value));
  }
}
