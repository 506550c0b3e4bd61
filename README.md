# valog, single-arena value log — a Dafny model

valog is a value log: an append-only store where each value is written once
into an arena and addressed afterwards by a *value pointer* `(id, offset,
size)`. This project models the core of one log over one arena.

- **Record framing.** `insert` reserves `n + 8` bytes, writes the value and
  then the little-endian `u64` checksum of exactly those bytes, and returns
  the pointer. `read(offset, len)` checks the bounds against the arena's
  data start and cursor, optionally re-checks the checksum, and returns the
  `len` value bytes.
- **Tombstones.** Tombstone inserts also add the value's length to the
  arena's discarded counter.
- **Header.** The 8-byte header is the text `valog!` followed by a
  little-endian `u16` magic version. `write_header` writes it and
  `check_header` validates it.
- **Configuration.** `Options` and `Builder` are record-style. `alloc` and
  `map_anon` create a log and write the header only when `unify` is set.
  `map` always validates the existing header. `map_mut` writes a fresh
  header into a new file and validates the header of an existing one.
- **Errors.** The error taxonomy comes with its constructors and mapping
  functions.

The model has one module per source file:

| Module | Contents |
|---|---|
| `Wrappers` | `Option`, `Result` and `Either` |
| `Bytes` | Fixed-width integers and little-endian encodings |
| `Errors` | `src/error.rs` |
| `Allocator` | The allocator, reduced to what the log relies on |
| `Config` | `src/options.rs` |
| `Logs` | `src/log.rs` |
| `LogReader` | `src/log/reader.rs` |
| `LogWriter` | `src/log/writer.rs` |
| `LogCommon` | `src/log/common.rs` |
| `Builders` | `src/options/builder.rs` |
| `OpenOptions` | `src/options/open_options.rs` |
| `GenericLogs` | The typed log of `src/log.rs` |
| `Usage` | The documentation examples and unit tests, as methods with proved results |

The allocator (`rarena_allocator`) is foreign code. Its model is a class
`Arena` with:

- a byte array whose length is the capacity;
- the reserved-prefix length;
- `dataOffset`, taken to be the reserved length plus one (a modelling choice, see "## Left out");
- a cursor that only grows;
- a wrapping 32-bit discarded counter;
- the arena's format version.

`ArenaView` is a value snapshot of this state. The pure specifications of
`insert` and `read` are written over it, and the imperative methods are
proved equal to them. The checksum algorithm (CRC-32 by default) is left
uninterpreted: it is a function `seq<u8> -> u64` that the builder carries.

## Model

| member | source | states |
|---|---|---|
| Bytes.Wrap32 | src/log/writer.rs:48-50 | `x as u32`: the value itself when it fits, otherwise its low 32 bits |
| Bytes.FromLeToLe | src/options.rs:482-483 | Decoding the `n` little-endian bytes of `x < 256^n` gives back `x` |
| Bytes.ToLeFromLe | src/options/open_options.rs:729-730 | Encoding a decoded byte string gives back the same bytes |
| Bytes.U16RoundTrip | src/options.rs:482-483 | `u16::from_le_bytes(to_le_bytes(x)) == x` |
| Bytes.U16Inverse | src/options/open_options.rs:729-730 | Two bytes are the `to_le_bytes` of their `from_le_bytes` value |
| Bytes.U64RoundTrip | src/log/writer.rs:205-206 | `u64::from_le_bytes` inverts `put_u64_le` |
| Bytes.U64Inverse | src/log/reader.rs:284-286 | Eight bytes are the encoding of their decoded `u64` |
| Bytes.CopyFromSlice | src/options.rs:480-484 | `copy_from_slice` at `at` replaces exactly `[at, at+|src|)` with `src` and leaves every other byte unchanged |
| Errors.FromInsufficientSpace | src/error.rs:108-120 | The allocator's `requested` and `available` reach `InsufficientSpace` unchanged |
| Errors.FromIo | src/error.rs:42-46 | An I/O error is wrapped as `IO` unchanged |
| Errors.FromArenaIoErr | src/error.rs:122-129 | A message starting with "ARENA's magic version mismatch" becomes the InvalidData "bad version" error; every other error is returned unchanged |
| Errors.HeaderErrorsSurviveArenaMapping | src/error.rs:134-149 | `bad_magic_text`, `bad_magic_version` and `bad_version` are three distinct InvalidData errors, and none of them is changed by `from_arena_io_err` |
| Errors.FromArenaIoErrIdempotent | src/error.rs:122-129 | Mapping twice equals mapping once, and the result is InvalidData or the original error |
| Allocator.NewArena | src/options/builder.rs:413-418 | A new arena fails exactly when the capacity does not exceed the reserved size, reporting the capacity as available. Otherwise it is zeroed, data starts at reserved + 1, nothing is allocated, discarded is 0 and the version comes from the options |
| Allocator.AllocBytes | src/log/writer.rs:191-195 | `alloc_bytes(k)` succeeds exactly when `cursor + k <= capacity` and then bumps the cursor by `k` only. Otherwise it fails with `requested = k`, `available = capacity - cursor` |
| Allocator.Arena.Create | src/options/builder.rs:413-418 | Creating the arena object yields a fresh arena whose state is `NewArena`, or that function's error |
| Allocator.Arena.Alloc | src/log/writer.rs:191-197 | The method behaves as `AllocBytes` and returns the old cursor as the start of the reserved range |
| Allocator.Arena.IncreaseDiscarded | src/log/writer.rs:162-164 | Only the discarded counter changes, by a wrapping 32-bit add |
| Config.NewOptions | src/options.rs:64-97 | Defaults: maximum value size `u32::MAX`, no capacity, magic version 0, reserved 0, no freelist, `unify` and `lock_meta` off, `sync` and `validate_checksum` on, every file flag off, offset 0, no huge pages |
| Config.Options.Capacity | src/options.rs:376-381 | The configured capacity, or 0 when none was set |
| Config.Options.WithReserved | src/options.rs:115-118 | Sets `reserved`, changes no other field |
| Config.Options.WithSync | src/options.rs:132-135 | Sets `sync`, changes no other field |
| Config.Options.WithValidateChecksum | src/options.rs:149-152 | Sets `validate_checksum`, changes no other field |
| Config.Options.WithLockMeta | src/options.rs:173-176 | Sets `lock_meta`, changes no other field |
| Config.Options.WithMagicVersion | src/options.rs:194-197 | Sets `magic_version`, changes no other field |
| Config.Options.WithFreelist | src/options.rs:211-214 | Sets `freelist`, changes no other field |
| Config.Options.WithUnify | src/options.rs:234-237 | Sets `unify`, changes no other field |
| Config.Options.WithMaximumValueSize | src/options.rs:251-254 | Sets `max_value_size`, changes no other field |
| Config.Options.WithCapacity | src/options.rs:266-269 | Sets the capacity, so `capacity()` returns it; changes no other field |
| Config.Options.WithRead | src/options/open_options.rs:25-28 | Sets `read`, changes no other field |
| Config.Options.WithWrite | src/options/open_options.rs:48-51 | Sets `write`, changes no other field |
| Config.Options.WithAppend | src/options/open_options.rs:95-99 | Sets `append` and forces `write` on; changes nothing else |
| Config.Options.WithTruncate | src/options/open_options.rs:118-122 | Sets `truncate` and forces `write` on; changes nothing else |
| Config.Options.WithCreate | src/options/open_options.rs:143-146 | Sets `create`, changes no other field |
| Config.Options.WithCreateNew | src/options/open_options.rs:175-178 | Sets `create_new`, changes no other field |
| Config.Options.WithOffset | src/options/open_options.rs:196-199 | Sets `offset`, changes no other field |
| Config.Options.WithStack | src/options/open_options.rs:217-220 | Sets `stack`, changes no other field |
| Config.Options.WithHuge | src/options/open_options.rs:242-245 | Sets `huge`, changes no other field |
| Config.Options.WithPopulate | src/options/open_options.rs:265-268 | Sets `populate`, changes no other field |
| Config.Options.ToArenaOptions | src/options.rs:451-474 | Arena reserved size is `HEADER_SIZE + reserved`; arena magic version is `CURRENT_VERSION` (0); every other setting is forwarded |
| Config.ArenaOptionsIgnoreMagicVersion | src/options.rs:451-456 | The user's magic version has no influence on the arena options |
| Config.HeaderBytes | src/options.rs:480-484 | The header is 8 bytes: "valog!" and then the version, which decodes back from bytes 6..8 |
| Config.StampHeader | src/options.rs:480-484 | Writing the header on an arena changes bytes `[0, 8)` only, to the header; nothing else in the arena changes |
| Config.WriteHeader | src/options.rs:480-484 | The buffer becomes the header followed by its untouched bytes from 8 on |
| Logs.Frame | src/log/writer.rs:197-206 | A record is `n + 8` bytes: the value, then a `u64` that decodes to the value's checksum |
| Logs.FrameInjective | src/log/writer.rs:197-206 | Equal records hold equal values |
| Logs.ValueLog.Checksum | src/log.rs:110-113 | `checksum(bytes)` is the log's checksum function applied to `bytes`: the `u64` that the record written for `bytes` ends with |
| Logs.ValueLog.Construct | src/log.rs:88-100 | `construct` keeps id, arena, checksum function and options exactly as given |
| LogReader.Read | src/log/reader.rs:250-293 | `(0, 0)` reads as empty. Otherwise the read succeeds exactly when `[offset, offset+len+8)` lies in `[data_offset, allocated)` and, with validation on, the checksum matches; it then returns exactly the `len` bytes at `offset`. Out of bounds reports `(offset, (len+8) as u32, data_offset, allocated)`. An in-bounds failure is `ChecksumMismatch` |
| LogReader.ReadFramedRecord | src/log/reader.rs:280-292 | A correctly framed record in bounds reads back as its value, with or without validation |
| LogReader.ReadOnlySeesWrittenBytes | src/log/reader.rs:257-292 | A successful read stays the same when the cursor grows and the written bytes are kept |
| LogReader.ReadLog | src/log/reader.rs:250-293 | `read` on a log: `(0, 0)` reads as empty; otherwise it succeeds exactly when the record is in bounds and, when the log validates checksums, its checksum holds, and then returns the `len` bytes at `offset` |
| LogReader.ReadSeesOnlyData | src/log/reader.rs:263-292 | A read's result depends on no byte outside `[data_offset, allocated)` |
| Wrappers.UnwrapRight | src/log/writer.rs:27 | `unwrap_right` on the error keeps success and failure and the values in them |
| LogWriter.BytesBuilder | src/log/writer.rs:23-26 | `insert`'s builder has the value's length and yields the value |
| LogWriter.EncodedBuilder | src/log/writer.rs:74-79 | `insert_generic`'s builder reserves `encoded_len` bytes and fills them with the encoder's output |
| LogWriter.InsertOutcome | src/log/writer.rs:172-226 | Size 0 gives `(id, 0, 0)` and changes nothing. `n + 8 > max_value_size` gives `ValueTooLarge(n+8, max)` before reserving. No room gives `InsufficientSpace(n+8, capacity-cursor)`. A builder error comes back as `Left`. Otherwise the pointer is `(id, old cursor, n)`, the record is value then checksum, and the cursor moves by `n + 8`. Success holds exactly in these cases, and bytes below the old cursor never change |
| LogWriter.InsertTombstoneOutcome | src/log/writer.rs:154-166 | Same result and arena as a plain insert, except that success adds the value length (not the checksum), wrapping at 32 bits, to the discarded counter |
| LogWriter.InsertThenRead | src/log/writer.rs:221-225 | Reading `(offset, size)` of a returned pointer yields the inserted bytes |
| LogWriter.InsertKeepsEarlierReads | src/log/writer.rs:191-206 | An insert, successful or not, never changes what an earlier successful read returns |
| LogWriter.SuccessiveInsertsAdjacent | src/log/writer.rs:191-197 | Two successful non-empty inserts occupy adjacent ranges after the data start, and the cursor ends at the second record's end |
| LogWriter.InsertIn | src/log/writer.rs:172-226 | The in-place method reserves, fills the value, checksums the bytes it wrote, appends the checksum, and equals `InsertOutcome` in result and new arena state |
| LogWriter.Insert | src/log/writer.rs:19-28 | `insert` is `InsertOutcome` with the error unwrapped to the right; a returned pointer reads back as the value |
| LogWriter.InsertTombstone | src/log/writer.rs:44-52 | `insert_tombstone` equals `InsertTombstoneOutcome` |
| LogWriter.InsertWith | src/log/writer.rs:97-105 | `insert_with` equals `InsertOutcome`; a built value reads back |
| LogWriter.InsertTombstoneWith | src/log/writer.rs:154-166 | `insert_tombstone_with` equals `InsertTombstoneOutcome`, counting `vb.size` |
| LogWriter.InsertGeneric | src/log/writer.rs:70-80 | Inserts the encoded bytes; on success they read back |
| LogWriter.InsertGenericTombstone | src/log/writer.rs:121-134 | The tombstone variant of `insert_generic` |
| LogCommon.ReservedSlice | src/log/common.rs:319-328 | Empty when `reserved == 0`, otherwise the reserved prefix after the 8 header bytes; always `reserved` bytes long |
| LogCommon.LogReservedSlice | src/log/reader.rs:68-77 | The log's reserved slice has exactly `reserved` bytes |
| LogCommon.WriteReservedSlice | src/log/common.rs:560-569 | Copying `src` into `reserved_slice_mut` makes a later `reserved_slice` return `src`; the header, the data and the counters do not change |
| LogCommon.ReservedWriteKeepsReads | src/log/common.rs:560-569 | Writing the reserved bytes changes no read result |
| LogCommon.FlushTo | src/log/common.rs:523-525 | `flush_to` emits the allocated memory, `allocated` bytes from the start |
| LogCommon.FlushHoldsEveryRecord | src/log/common.rs:523-525 | Every value a read returns appears at its offset in the flushed bytes |
| Builders.NewBuilder | src/options/builder.rs:24-29 | `Builder::new()` holds `Options::new()` and the CRC-32 checksum |
| Builders.Builder.WithChecksumer | src/options/builder.rs:43-48 | Replaces the checksum function and keeps the options |
| Builders.Builder.WithOptions | src/options/builder.rs:60-63 | Replaces all options and keeps the checksum function |
| Builders.Builder.WithReserved | src/options/builder.rs:81-84 | The getter reads back the value; no other option changes |
| Builders.Builder.WithSync | src/options/builder.rs:98-101 | The getter reads back the value; no other option changes |
| Builders.Builder.WithLockMeta | src/options/builder.rs:122-125 | The getter reads back the value; no other option changes |
| Builders.Builder.WithMagicVersion | src/options/builder.rs:143-146 | The getter reads back the value; no other option changes |
| Builders.Builder.WithFreelist | src/options/builder.rs:160-163 | The getter reads back the value; no other option changes |
| Builders.Builder.WithUnify | src/options/builder.rs:183-186 | The getter reads back the value; no other option changes |
| Builders.Builder.WithMaximumValueSize | src/options/builder.rs:200-203 | The getter reads back the value; no other option changes |
| Builders.Builder.WithCapacity | src/options/builder.rs:217-220 | `capacity()` reads back the value; no other option changes |
| Builders.Builder.WithRead | src/options/open_options.rs:755-758 | The getter reads back the value; no other option changes |
| Builders.Builder.WithWrite | src/options/open_options.rs:778-781 | The getter reads back the value; no other option changes |
| Builders.Builder.WithAppend | src/options/open_options.rs:825-829 | Sets `append` and forces `write` on; nothing else changes |
| Builders.Builder.WithTruncate | src/options/open_options.rs:848-852 | Sets `truncate` and forces `write` on; nothing else changes |
| Builders.Builder.WithCreate | src/options/open_options.rs:873-876 | The getter reads back the value; no other option changes |
| Builders.Builder.WithCreateNew | src/options/open_options.rs:905-908 | The getter reads back the value; no other option changes |
| Builders.Builder.WithOffset | src/options/open_options.rs:926-929 | The getter reads back the value; no other option changes |
| Builders.Builder.WithStack | src/options/open_options.rs:947-950 | The getter reads back the value; no other option changes |
| Builders.Builder.WithHuge | src/options/open_options.rs:972-975 | The getter reads back the value; no other option changes |
| Builders.Builder.WithPopulate | src/options/open_options.rs:995-998 | The getter reads back the value; no other option changes |
| Builders.Builder.AllocView | src/options/builder.rs:407-429 | `alloc` fails with `InsufficientSpace` exactly when the capacity does not exceed `8 + reserved`. Otherwise the arena has data offset and cursor `9 + reserved`, discarded 0 and version 0, and its memory is zero except the header, which is present exactly when `unify` is set |
| Builders.Builder.Alloc | src/options/builder.rs:407-429 | The method creates a fresh log with the builder's options and checksum, whose arena is `AllocView`, or returns `AllocView`'s error |
| OpenOptions.CheckHeader | src/options/open_options.rs:724-736 | Wrong magic text gives "bad magic text". Otherwise a stored version other than the expected one gives "bad magic version". Success returns the expected version |
| OpenOptions.CheckHeaderExact | src/options/open_options.rs:724-736 | The check succeeds exactly when the first 8 bytes are the header `write_header` writes for that version |
| OpenOptions.HeaderRoundTrip | src/options/open_options.rs:724-736 | A written header passes the check for its own version and yields it; for any other version it fails with "bad magic version" |
| OpenOptions.StampedArenaReopens | src/options/open_options.rs:712-716 | An arena whose header was freshly written passes the check on reopening |
| OpenOptions.MapAnon | src/options/open_options.rs:474-495 | Allocator errors pass through. Otherwise the header is written only with `unify` on, and the log keeps the builder's options and checksum |
| OpenOptions.MapWithPathBuilder | src/options/open_options.rs:592-615 | Path errors come back as `Left`. Allocator errors go through `from_arena_io_err` as `Right`. The header is always checked, and a failed check is `Right`. On success the arena is exactly the mapped one |
| OpenOptions.Map | src/options/open_options.rs:540-547 | `map_with_path_builder` with an infallible path, unwrapped to its I/O error |
| OpenOptions.MapMutWithPathBuilder | src/options/open_options.rs:691-721 | Path errors are `Left`, allocator errors go through `from_arena_io_err`. A new file gets a fresh header, and an existing file's header is checked |
| OpenOptions.MapMut | src/options/open_options.rs:648-659 | `map_mut_with_path_builder` with an infallible path, unwrapped to its I/O error: a new file gets a fresh header, an existing file's header is checked, and a successful result is a fresh log over a fresh arena that keeps the builder's options and checksum function |
| GenericLogs.GenericValueLog.Read | src/log.rs:293-298 | The typed log's `read` succeeds exactly when the byte `read` of its inner log does, returns the codec's decoding of those bytes, and otherwise passes the byte read's error through |
| GenericLogs.ReadGeneric | src/log/reader.rs:304-308 | `read_generic` succeeds exactly when `read` does and returns the decoded bytes, or `read`'s error |
| GenericLogs.InsertGenericThenRead | src/log.rs:293-321 | When decoding undoes encoding, a typed value inserted with `insert_generic` reads back as itself |
| GenericLogs.GenericValueLog.Construct | src/log.rs:253-263 | Builds the inner log from exactly the given parts |
| GenericLogs.GenericValueLog.Insert | src/log.rs:302-308 | Delegates to `insert_generic`; the value reads back when the codec round-trips |
| GenericLogs.GenericValueLog.InsertTombstone | src/log.rs:315-321 | Delegates to `insert_generic_tombstone` |
| Usage.NewLog | src/tests.rs:12-15 | A fresh log of capacity 100 has cursor and data offset 9, discarded 0 and version 0 |
| Usage.DataOffsets | src/log/common.rs:121-141 | Data offset is 9 without reserved bytes and 17 with 8 |
| Usage.Versions | src/log/common.rs:59-95 | `version()` is 0 while `magic_version()` is the configured 1 |
| Usage.DiscardedAfterTombstone | src/log/common.rs:97-118 | Discarded goes from 0 to 13 after a tombstone insert of "Hello, valog!" |
| Usage.FlushFresh | src/log/common.rs:503-525 | A fresh log flushes exactly `data_offset` (9) bytes |
| Usage.ReservedRoundTrip | src/log/common.rs:531-569 | With 8 reserved bytes the slice has length 8, and "mysanity" copied in reads back |
| Usage.ReadOutOfBounds | src/tests.rs:10-22 | Reads `(0, 10)` and `(10, 10)` on a fresh log are both out of bounds, with length 18, data offset 9 and end 9 |
| Usage.InsertEmpty | src/tests.rs:67-78 | Inserting an empty value returns `(0, 0, 0)` |
| Usage.InsertBigValue | src/tests.rs:44-54 | Ten bytes with maximum value size 3 give `ValueTooLarge(18, 3)` |
| Usage.InsertInsufficient | src/tests.rs:56-65 | A hundred bytes in a fresh 100-byte log give `InsufficientSpace(108, 91)` |
| Usage.ChecksumMismatchDetected | src/tests.rs:24-42 | Zeroing a stored value's first byte makes the read fail with `ChecksumMismatch` |
| Usage.InsertKeepsHeader | src/tests.rs:99-125 | Inserts never touch the header, so a reopened file still passes the header check |

## Left out

- The allocator's internals are not modelled. This covers lock-free bump allocation, the freelist, and the sync and unsync arenas. It also covers memory-map creation, file locks, `mlock`/`munlock`, `flush`, `flush_range` and `flush_async`. The arena is the abstract class described above.
- Concurrency is left out: the threads of `concurrent_basic` and of the example program. The model is sequential.
- LogWriter.InsertIn: the sync-on-insert flush to disk (`flush_header_and_range`) and its I/O error are not modelled, because they are I/O. The model behaves as an in-memory log.
- LogWriter.InsertOutcome: after a builder failure the model keeps the cursor bumped and the memory unchanged. The source drops the un-detached buffer, and what the allocator then reclaims is its own business.
- LogWriter.InsertTombstone: returns the plain pointer. The `with_tombstone` marking is not defined in `src/log.rs`, and `ValuePointer` there has no tombstone field.
- Config.Options.ToArenaOptions: requires `reserved <= u32::MAX - 8`. Beyond that the source's `HEADER_SIZE as u32 + reserved` overflows.
- Builders.Builder.AllocView: when capacity is unset, the allocator's default capacity is a parameter. The arena-creation failure reports `requested = reserved + 1`, which is this model's choice, because the allocator's own figures are not visible.
- Allocator.NewArena: the allocator's code is not part of this model. Its data-offset formula (reserved length plus one) and its failure condition (capacity not above the reserved length) are this model's choices. They are calibrated on the `data_offset` examples of src/log/common.rs:121-141 (9 without reserved bytes, 17 with 8), not taken from the allocator.
- OpenOptions.MapAnon: the mapping outcome is a parameter, since the memory map is foreign. The same holds for `MapWithPathBuilder`, `Map`, `MapMutWithPathBuilder` and `MapMut`. For the two `map_mut` methods, whether the path existed is a parameter too. The mapped arena is required to have the log's reserved prefix.
- `ImmutableValueLog` and `ImmutableGenericValueLog` are modelled by the same `ValueLog` and `GenericValueLog` classes. Their read side is identical.
- The CRC-32 algorithm and the `Type`/`VacantBuffer` encoding machinery are left out. The checksum is a function parameter. An encoder is a length, a fallible encoder and a decoder, with the encoder writing exactly the advertised length.
- Usage.ChecksumMismatchDetected: requires that the damaged value's CRC-32 differ from the original's. This holds for CRC-32 but is not derivable from an uninterpreted checksum.
- `path`, `in_memory`, `on_disk`, `is_map`, `lock_exclusive`, `lock_shared` and `unlock` are left out. So are the flush methods of `MutableLog` and the `Display` messages of `Error`. They report on or act through the allocator's files and formatting.
- The getters of `Options` are its fields. The getters of `Builder` and `ValuePointer`, and the accessors `Id`, `MagicVersion`, `Version`, `Discarded` and `DataOffset` of the log, read a field and carry no contract of their own. The same holds for the constants `Errors.BadMagicText`, `Errors.BadMagicVersion` and `Errors.BadVersion`; what is proved about them is `Errors.HeaderErrorsSurviveArenaMapping`.
- Errors.FromInsufficientSpace: the allocator's other error variants, and the `unreachable!()` panic that `from_insufficient_space` hits on them, are left out. The allocator error type has only its `InsufficientSpace` variant here, so that panic path cannot be expressed.
