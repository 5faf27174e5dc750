# rust-rocksdb binding core, modelled in Dafny

This project models `src/rocksdb.rs` of the `rust-rocksdb` crate. That file
is the safe Rust layer over the RocksDB C API. The storage engine behind the
C API is abstract here. Everything the engine hands back becomes a parameter
of the model, and the engine calls the binding makes on lifecycle paths are
recorded, in order, as a trace. Examples of what the engine hands back:
- an error out-pointer, as `Option<Bytes>`;
- a handle, as `Ptr` with `NULL = 0`;
- a value buffer, or the string behind a property.

What is modelled, by module:

- `Database` covers `DB::open_cf`, `open` and `open_default`:
  - the checks before the engine is reached: NUL in the path, directory creation, option-list length, and the `unwrap` panic on a column-family name holding NUL;
  - the silent append of `"default"` with the database-level options;
  - the order of the checks on the engine's reply;
  - the `BTreeMap` of column-family names to handles.
- The `Db` class covers `create_cf`, `drop_cf`, `cf_handle`, `cf_names`, `flush` and `Drop for DB`.
- The module-level method `Database.GetApproximateSizesCfOpt` covers `get_approximate_sizes_cfopt`. It returns the engine request instead of recording it in a `Db`'s trace.
- `Reads` covers the result dispatch of `get_opt`/`get_cf_opt` (and through them `get`/`get_cf`), `DBVector::from_c`/`deref`/`to_utf8`, and the property queries `get_property_value_cf_opt`/`get_property_int_cf_opt`.
  - `Decimal` models Rust's `u64` parse, with an optional `+`, at least one digit, and overflow detection.
  - `Utf8` models the UTF-8 well-formedness check of section 4 of RFC 3629 that `str::from_utf8` performs.
- `Iteration` models `DBIterator` over an abstract cursor: a strictly ascending key sequence with values, and a position from -1 to `|keys|`.
- `Batches` models `WriteBatch` and its `Writable` impl as an append-only list of records.
- `Ranges` models `Range::new`.
- `ByteStrings` holds the byte-string type, the lexicographic order Rust uses for `&[u8]`, `String` and `BTreeMap` keys, and a sorted enumeration of a set of keys.

Text is bytes throughout. Rust compares `str` and `String` by their UTF-8 bytes, so one byte order serves names, keys and ranges.

Errors are modelled as kinds (`Native.Error`), not as message texts. A Rust `panic!` from `unwrap` is the `Panics` case of `Wrappers.Outcome`. The `assert!` preconditions of the source are `requires` clauses:
- validity for `key()`/`value()`;
- `start_key <= end_key` for `Range::new`.

The engine itself requires a positioned iterator for `rocksdb_iter_next`/`prev`, so the model's `Next`/`Prev` require `Valid()`.

`create_cf` stores the handle the engine returns (src/rocksdb.rs:553) before it looks at the error out-pointer (src/rocksdb.rs:556). A family whose creation failed therefore stays in the map: `cf_handle` returns its handle and `Drop` destroys it. `Db.CreateCf` models that order, `Db.CreateCfChecked` the check-first version, and the finding below gives both halves.

## Model

| member | source | states |
|---|---|---|
| ByteStrings.LexLtMeansFirstDifference | src/rocksdb.rs:275 | the byte order used by `start_key <= end_key` is the first-difference order: a proper prefix is smaller, otherwise the first differing byte decides |
| ByteStrings.SortedUnique | src/rocksdb.rs:586-589 | two strictly ascending lists with the same elements are equal, so the in-order key list of a map is uniquely determined |
| ByteStrings.SortedKeys | src/rocksdb.rs:586-589 | the ascending enumeration of a key set: strictly sorted, one entry per key, exactly the set's members |
| ByteStrings.CStrPrefix | src/rocksdb.rs:924 | what `CStr::from_ptr` reads: a zero-free prefix of the buffer that ends at its first zero byte, or the whole buffer when it has none |
| Utf8.AsciiIsUtf8 | src/rocksdb.rs:924 | ASCII text (such as a rendered integer property) passes the UTF-8 check that `to_str().unwrap()` relies on |
| Decimal.AccumulateFits | src/rocksdb.rs:937 | the checked multiply-add digit loop yields the decimal value exactly when the text is all digits and the value fits in 64 bits, and fails otherwise |
| Decimal.ParseU64 | src/rocksdb.rs:937 | `parse::<u64>` succeeds exactly on an optional `+` followed by one or more digits whose value is at most 2^64-1, and then yields that value |
| Decimal.Render | src/rocksdb.rs:934-935 | the engine's decimal rendering of an integer property is non-empty and all digits |
| Decimal.ParseRender | src/rocksdb.rs:930-943 | parsing the decimal rendering of any `u64` gives the number back |
| Native.CheckError | src/rocksdb.rs:757-760 | the engine's error out-pointer maps to `Ok(())` exactly when it is null, and otherwise to an engine error carrying its message |
| Reads.Deref | src/rocksdb.rs:1133-1138 | the buffer's bytes |
| Reads.FromC | src/rocksdb.rs:1149-1154 | the owned buffer keeps the engine's pointer and dereferences to exactly the reported bytes |
| Reads.ToUtf8 | src/rocksdb.rs:1156-1158 | the value as text is present exactly when its bytes are UTF-8, and is then those bytes |
| Reads.GetOpt | src/rocksdb.rs:449-530 | null read options are refused first; then any engine error wins whatever value came back; then a null value is `Ok(None)`; otherwise `Ok(Some)` holds the returned pointer and bytes; `Ok` exactly when the options are non-null and no error is set |
| Reads.PropertyValue | src/rocksdb.rs:900-928 | panics exactly when the name holds a NUL byte or the reply's text (its bytes before the first zero byte) is not UTF-8; `None` exactly for a null reply; otherwise that text |
| Reads.PropertyInt | src/rocksdb.rs:930-943 | panics exactly when the property read panics; `Some(n)` exactly when the reply exists and its text is UTF-8 and parses as a `u64`, with `n` its decimal value |
| Reads.PropertyIntOfRendered | src/rocksdb.rs:930-943 | an integer property that the engine renders in decimal is read back as the same number |
| Ranges.NewRange | src/rocksdb.rs:265-281 | requires `start_key <= end_key`, keeps both bounds, returns an ordered range (the only kind the size query accepts), and contains its start key exactly when the bounds differ |
| Ranges.NonEmptyIffBoundsDiffer | src/rocksdb.rs:265-267 | a half-open range with ordered bounds contains some key exactly when its bounds differ |
| Iteration.LowerBound | src/rocksdb.rs:103-107 | the seek position: every key before it is below the target, and the key at it (if any) is not |
| Iteration.LowerBoundSplits | src/rocksdb.rs:103-107 | on sorted keys, every key from the seek position on is at or above the target |
| Iteration.DbIterator.constructor | src/rocksdb.rs:81-91 | a new iterator over one column family's sorted entries is not yet valid |
| Iteration.DbIterator.Seek | src/rocksdb.rs:93-110 | `Start` goes to the first key, `End` to the last, `Key(k)` to the first key not below `k`, and the result is the validity afterwards |
| Iteration.DbIterator.Next | src/rocksdb.rs:119-124 | one step forward; the result is the validity afterwards, true exactly when a next key exists |
| Iteration.DbIterator.Prev | src/rocksdb.rs:112-117 | one step back; the result is the validity afterwards, true exactly when a previous key exists |
| Iteration.DbIterator.Valid | src/rocksdb.rs:156-158 | on an entry exactly when `0 <= pos < |keys|` |
| Iteration.DbIterator.Key | src/rocksdb.rs:126-135 | requires validity; the current key |
| Iteration.DbIterator.Value | src/rocksdb.rs:137-146 | requires validity; the current key's value |
| Iteration.DbIterator.Kv | src/rocksdb.rs:148-154 | `None` exactly when the iterator is not valid, otherwise the current key and value |
| Iteration.DbIterator.NextItem | src/rocksdb.rs:179-189 | yields what `kv()` gave before the call; advances exactly when valid and leaves the cursor untouched when not |
| Iteration.ScanFromStart | src/rocksdb.rs:1224-1236 | seeking to the start and pulling until `None` yields every entry once, in strictly ascending key order |
| Iteration.ScanFromEnd | src/rocksdb.rs:93-117 | seeking to the end and stepping back while valid yields every entry once, in strictly descending key order |
| Batches.WriteBatch.constructor | src/rocksdb.rs:980-991 | a new batch holds no records |
| Batches.WriteBatch.Count | src/rocksdb.rs:993-995 | the number of records buffered |
| Batches.WriteBatch.IsEmpty | src/rocksdb.rs:997-999 | empty exactly when no record is buffered (count is 0) |
| Batches.WriteBatch.Put | src/rocksdb.rs:1020-1029 | returns `Ok(())` and appends exactly one put into the default family |
| Batches.WriteBatch.PutCf | src/rocksdb.rs:1031-1045 | returns `Ok(())` and appends exactly one put into the given family |
| Batches.WriteBatch.Merge | src/rocksdb.rs:1047-1056 | returns `Ok(())` and appends exactly one merge into the default family |
| Batches.WriteBatch.MergeCf | src/rocksdb.rs:1058-1072 | returns `Ok(())` and appends exactly one merge into the given family |
| Batches.WriteBatch.Delete | src/rocksdb.rs:1074-1081 | returns `Ok(())` and appends exactly one deletion from the default family |
| Batches.WriteBatch.DeleteCf | src/rocksdb.rs:1083-1092 | returns `Ok(())` and appends exactly one deletion from the given family |
| Batches.BatchCounts | src/rocksdb.rs:1195-1222 | a fresh batch has count 0 and is empty; one put gives count 1 and non-empty; one delete gives count 1 |
| Database.DefaultHasNoNul | src/rocksdb.rs:28 | the default family's name converts to a C string |
| Database.WithDefault | src/rocksdb.rs:318-324 | the names sent always include `"default"`; the caller's lists are kept as a prefix; `"default"` with the database options is appended only when not named; names and options stay equal in length |
| Database.PrepareOpen | src/rocksdb.rs:299-351 | a NUL in the path, then a directory error, then a length mismatch are returned as errors, in that order; a NUL in a family name panics; the engine is asked exactly when all pass, with the prepared lists |
| Database.EngineHandles | src/rocksdb.rs:336-354 | the handle vector starts as nulls and holds what the engine wrote |
| Database.ZipMap | src/rocksdb.rs:367-370 | the map's keys are exactly the names inserted |
| Database.ZipMapValues | src/rocksdb.rs:367-370 | every value in the map is one of the handles inserted |
| Database.ZipMapLastWins | src/rocksdb.rs:367-370 | a name is bound to the handle of its last occurrence, since later inserts overwrite earlier ones |
| Database.ZipMapDistinct | src/rocksdb.rs:367-370 | with distinct names, each is bound to the handle at its own position |
| Database.FinishOpen | src/rocksdb.rs:356-380 | an engine error gives `Engine(message)`; then any null family handle gives `NullColumnFamilyHandle`; then a null database handle gives `NullDatabase`; `Ok` exactly when none occurs, with the map built from the names and every stored handle non-null |
| Database.OpenCfSpec | src/rocksdb.rs:294-381 | early rejections and panics come first; on success the database handle is non-null, the map's keys are the caller's names plus `"default"`, and every handle is non-null |
| Database.OpenWithoutFamilies | src/rocksdb.rs:290-292 | opening with no families named yields exactly the default family, bound to the first handle returned |
| Database.HasNullHandle | src/rocksdb.rs:360-365 | the loop finds a null handle exactly when the vector holds one |
| Database.BuildMap | src/rocksdb.rs:367-370 | the insertion loop builds the map the names and handles define |
| Database.OpenCf | src/rocksdb.rs:294-381 | returns what `OpenCfSpec` describes, as a fresh database with an empty call trace, and reports the engine request exactly when the early checks pass |
| Database.Open | src/rocksdb.rs:290-292 | `open_cf` with no families named: the same outcome as `OpenCfSpec` in every case (errors before the engine, engine errors, null handles), the engine reached exactly when the early checks pass, and on success a fresh database with an empty trace holding only the default family |
| Database.OpenDefault | src/rocksdb.rs:284-288 | `open` with fresh default options: the same outcome as `OpenCfSpec` in every case, the engine reached exactly when the early checks pass, and on success a fresh database with an empty trace holding only the default family |
| Database.CreateAsWritten | src/rocksdb.rs:532-560 | a NUL name is refused without an engine call; otherwise the handle is stored under the name whatever the engine reports, and the result is `Ok` exactly when no error is set |
| Database.CreateChecked | src/rocksdb.rs:532-560 | as `create_cf` is meant to behave: on any error the map is unchanged; on success the name is bound to the new handle and nothing else changes |
| Database.CreateAgreesUnlessEngineFails | src/rocksdb.rs:532-560 | both versions return the same result and make the same engine call; they differ only in the map, and only when the engine fails |
| Database.FailedCreateLosesDefaultHandle | src/rocksdb.rs:547-556 | as written, a failed `create_cf("default")` returning a null handle replaces the good default handle; the checked version keeps it |
| Database.CreatesKeepFamilies | src/rocksdb.rs:532-559 | no run of `create_cf` calls, as written or check-first, removes a family, so `"default"` stays a key; with the check-first version a run of failed calls leaves the map unchanged |
| Database.Db.constructor | src/rocksdb.rs:376-380 | the opened database holds the engine handle, the map and the path, with no calls made yet |
| Database.Db.State | src/rocksdb.rs:30-34 | the database's fields as a value |
| Database.Db.CreateCf | src/rocksdb.rs:532-560 | the map and result follow `CreateAsWritten`, the source's insert-then-check order; the engine call is recorded exactly when the name converts |
| Database.Db.CreateCfChecked | src/rocksdb.rs:532-560 | the corrected version: the map and result follow `CreateChecked`, so a failed call leaves the map unchanged |
| Database.Db.DropCf | src/rocksdb.rs:562-580 | an unknown name is an `Invalid column family` error without an engine call; otherwise the engine's answer, after a drop call on the stored handle; the map never changes |
| Database.Db.CfHandle | src/rocksdb.rs:582-585 | present exactly when the name is in the map, and then its handle |
| Database.Db.CfNames | src/rocksdb.rs:586-589 | every key of the map once, in strictly ascending order |
| Database.InOrder | src/rocksdb.rs:586-589 | the in-order traversal of the keys is their ascending enumeration |
| Database.InOrderStep | src/rocksdb.rs:586-589 | taking the least remaining key keeps the traversal consistent with the ascending enumeration |
| Database.Db.Flush | src/rocksdb.rs:750-762 | options are created, set to wait or not, used for the flush and destroyed, on every path, and only then is the error turned into the result |
| Database.Db.Drop | src/rocksdb.rs:1008-1017 | every handle in the map is destroyed, in key order, and only then is the database closed |
| Database.Db.DestroyHandles | src/rocksdb.rs:1011-1013 | the loop issues one destroy per listed name, in order |
| Database.DestroyAll | src/rocksdb.rs:1011-1013 | one destroy call per key, for the handle stored under it, in key order |
| Database.DestroyAllCovers | src/rocksdb.rs:1008-1017 | walking all the keys destroys every handle in the map |
| Database.AsI32 | src/rocksdb.rs:804 | `usize as i32` keeps the low 32 bits as two's complement: the result lies in the `i32` range, differs from the count by a multiple of 2^32, and is the identity below 2^31 |
| Database.Filled | src/rocksdb.rs:798-831 | the engine fills at most one slot per range, and every slot when there are fewer than 2^31 ranges |
| Database.GetApproximateSizesCfOpt | src/rocksdb.rs:782-832 | exactly one size per range, the engine's estimate for that range or 0 if not filled; the four marshalled arrays hold each range's keys and lengths, and the count is the `i32` cast of the range count |

## Left out

- Engine semantics are not modelled: storage, merge resolution, snapshots, size estimates, property contents, and which handles or errors the engine returns. Each of these is a parameter.
- `fs::create_dir_all` is only a step that may fail (`dirErr`).
- Point writes on `DB` (`put`/`put_opt`/`put_cf_opt`, `merge*`, `delete*`) and `write_opt`/`write`/`write_without_wal` only forward to the engine. Their outcome is `Native.CheckError`, so they have no members of their own.
- `destroy` and `repair` are not modelled. Each converts the path with `CString::new(..).unwrap()`, so it panics on a NUL byte in the path (src/rocksdb.rs:384, 401). Otherwise it calls the engine and turns the error out-pointer into the result.
- `path`, `delete_file_in_range(_cf)`, `iter`/`iter_opt`/`iter_cf`, `snapshot`, `unsafe_snap`/`release_snap` and `Snapshot`'s delegating methods only forward to the engine or hand out references. They are not operations of this model.
- Release of the iterator, of read options, of write batches and of `DBVector`/property buffers (`libc::free`) is not modelled. The leak of the property buffer when `to_str().unwrap()` panics is not modelled either.
- Raw-pointer lifetimes of `key()`/`value()` borrows and of `DBIterator`'s back-reference to the database are not modelled.
- `Send`/`Sync` for `DB` is a concurrency contract and is not modelled.
- Error message texts are not modelled, only error kinds. This includes the `error_message` conversion, which is not part of this model.
- `OpenCf`: the `cfs_v.len() as c_int` cast on the column-family count is not modelled.
- `GetApproximateSizesCfOpt`: a count of 2^31 ranges or more wraps in the `i32` cast. For that case the model assumes the engine fills the slots only when the wrapped count is positive. That behaviour belongs to the engine, which is not part of this model.
- `Batches.WriteBatch.Count`: the `c_int` to `usize` cast of `rocksdb_writebatch_count` is not modelled. The count is the unbounded number of records.
- `librocksdb_sys/build.rs` is build plumbing and is not part of this model.

## Findings

| source | as written | input that shows it | evidently intended | confidence | as-written member | corrected member |
|---|---|---|---|---|---|---|
| src/rocksdb.rs:547-559 | `create_cf` stores the returned handle in the map before checking the error out-pointer | `create_cf("default", opts)` on an open database, where the engine reports an error and returns a null handle: `Err` is returned, but the default family's good handle has been replaced by null, and `Drop` will later destroy the null handle | store the handle only when the engine reports success, so a failed call leaves the map unchanged | medium, not executed | Database.FailedCreateLosesDefaultHandle | Database.CreateChecked |
