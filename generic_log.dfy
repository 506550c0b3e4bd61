/** Logs of typed values (`GenericValueLog` in src/log.rs and
    `read_generic` in src/log/reader.rs): a value log paired with the value
    type's codec, whose inserts encode in place and whose reads decode. */
module GenericLogs {
  import opened Wrappers
  import opened Bytes
  import opened Errors
  import opened Allocator
  import opened Config
  import opened Logs
  import opened LogReader
  import opened LogWriter

  /** `read_generic`: a plain read whose bytes, on success, are decoded. */
  function ReadGeneric<T, E>(v: ArenaView, validate: bool, checksum: Checksumer, codec: Codec<T, E>, offset: u32, len: u32): (r: Result<T, Error>)
    requires v.Valid()
    ensures r.Ok? <==> Read(v, validate, checksum, offset, len).Ok?
    ensures r.Ok? ==> r.value == codec.decode(Read(v, validate, checksum, offset, len).value)
    ensures r.Err? ==> r.error == Read(v, validate, checksum, offset, len).error
  {
    match Read(v, validate, checksum, offset, len)
    case Ok(bytes) => Ok(codec.decode(bytes))
    case Err(e) => Err(e)
  }

  /** Round trip for typed values: when decoding undoes encoding, reading
      back the pointer `insert_generic` returned yields the inserted value. */
  lemma InsertGenericThenRead<I, T, E>(v: ArenaView, id: I, maximum: u32, checksum: Checksumer, codec: Codec<T, E>, x: T, validate: bool)
    requires v.Valid() && codec.Encodes(x) && codec.encode(x).Ok?
    requires codec.decode(codec.encode(x).value) == x
    requires InsertOutcome(v, id, maximum, checksum, EncodedBuilder(codec, x)).result.Ok?
    ensures var o := InsertOutcome(v, id, maximum, checksum, EncodedBuilder(codec, x));
            ReadGeneric(o.after, validate, checksum, codec, o.result.value.offset, o.result.value.size) == Ok(x)
  {
    InsertThenRead(v, id, maximum, checksum, EncodedBuilder(codec, x), validate);
  }

  class GenericValueLog<T, I, E> {
    const log: ValueLog<I>
    const codec: Codec<T, E>

    ghost predicate Valid()
      reads this, log, log.arena
    {
      log.Valid()
    }

    /** `construct`: the inner log is built from exactly the given parts. */
    constructor Construct(fid: I, arena: Arena, checksumer: Checksumer, options: Options, codec: Codec<T, E>)
      ensures log.fid == fid && log.arena == arena && log.checksumer == checksumer && log.options == options
      ensures this.codec == codec
      ensures fresh(log)
    {
      log := new ValueLog.Construct(fid, arena, checksumer, options);
      this.codec := codec;
    }

    function Id(): I reads this { log.fid }

    function MagicVersion(): u16 reads this { log.MagicVersion() }

    /** `read`: the inner log's `read_generic`. */
    function Read(offset: u32, len: u32): (r: Result<T, Error>)
      reads this, log, log.arena, log.arena.mem
      requires Valid()
      ensures r.Ok? <==> ReadLog(log, offset, len).Ok?
      ensures r.Ok? ==> r.value == codec.decode(ReadLog(log, offset, len).value)
      ensures r.Err? ==> r.error == ReadLog(log, offset, len).error
    {
      ReadGeneric(log.arena.View(), log.options.validateChecksum, log.checksumer, codec, offset, len)
    }

    /** `insert`: the inner log's `insert_generic`. */
    method Insert(value: T) returns (r: Result<ValuePointer<I>, Either<E, Error>>)
      requires Valid() && codec.Encodes(value)
      modifies log.arena, log.arena.mem
      ensures Valid()
      ensures r == InsertOutcome(old(log.arena.View()), log.fid, log.options.maxValueSize, log.checksumer, EncodedBuilder(codec, value)).result
      ensures log.arena.View() == InsertOutcome(old(log.arena.View()), log.fid, log.options.maxValueSize, log.checksumer, EncodedBuilder(codec, value)).after
      ensures r.Ok? && codec.encode(value).Ok? && codec.decode(codec.encode(value).value) == value ==>
                Read(r.value.offset, r.value.size) == Ok(value)
    {
      r := InsertGeneric(log, codec, value);
    }

    /** `insert_tombstone`: the inner log's `insert_generic_tombstone`. */
    method InsertTombstone(value: T) returns (r: Result<ValuePointer<I>, Either<E, Error>>)
      requires Valid() && codec.Encodes(value)
      modifies log.arena, log.arena.mem
      ensures Valid()
      ensures r == InsertTombstoneOutcome(old(log.arena.View()), log.fid, log.options.maxValueSize, log.checksumer, EncodedBuilder(codec, value)).result
      ensures log.arena.View() == InsertTombstoneOutcome(old(log.arena.View()), log.fid, log.options.maxValueSize, log.checksumer, EncodedBuilder(codec, value)).after
    {
      r := InsertGenericTombstone(log, codec, value);
    }
  }
}
