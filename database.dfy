/** `DB`: opening a database with its column families, the binding's own map
    from column-family names to engine handles, and the engine calls whose
    order the binding fixes (flush, size estimates, release on drop). The
    engine is abstract: what it hands back is a parameter, and the calls
    made through a `Db` are recorded in `calls`. */
module Database {
  import opened ByteStrings
  import opened Wrappers
  import opened Native
  import opened Ranges

  /** The name of the column family every database has. */
  const DEFAULT_COLUMN_FAMILY: Bytes := Ascii("default")

  lemma DefaultHasNoNul()
    ensures |DEFAULT_COLUMN_FAMILY| == 7 && !HasNul(DEFAULT_COLUMN_FAMILY)
  {
    assert forall i | 0 <= i < 7 :: DEFAULT_COLUMN_FAMILY[i] as int == "default"[i] as int;
  }

  /** Engine calls the binding issues; a `Db` records those on its lifecycle
      paths, in order. */
  datatype EngineCall =
    | OpenColumnFamilies(opts: Ptr, path: Bytes, names: seq<Bytes>, cfOpts: seq<Ptr>)
    | CreateColumnFamily(familyOpts: Ptr, name: Bytes)
    | DropColumnFamily(handle: Ptr)
    | FlushOptionsCreate
    | FlushOptionsSetWait(flushOpts: Ptr, wait: bool)
    | Flush(flushOpts: Ptr)
    | FlushOptionsDestroy(flushOpts: Ptr)
    | ColumnFamilyHandleDestroy(handle: Ptr)
    | Close

  /** What `rocksdb_open_column_families` hands back: the database handle,
      the handles it wrote into the binding's vector (it may write fewer
      than asked for), and the error out-pointer. */
  datatype OpenReply = OpenReply(db: Ptr, handles: seq<Ptr>, err: Option<Bytes>)

  /** The fields of a `DB`. */
  datatype DbState = DbState(inner: Ptr, cfs: map<Bytes, Ptr>, path: Bytes)

  // ---------------------------------------------------------------------
  // Opening

  /** The name and option lists sent to the engine: the caller's, with
      `"default"` and the database-level options appended when the caller
      did not name it. */
  function WithDefault(opts: Ptr, cfs: seq<Bytes>, cfOpts: seq<Ptr>): (p: (seq<Bytes>, seq<Ptr>))
    requires |cfs| == |cfOpts|
    ensures |p.0| == |p.1| && DEFAULT_COLUMN_FAMILY in p.0
    ensures |p.0| == if DEFAULT_COLUMN_FAMILY in cfs then |cfs| else |cfs| + 1
    ensures p.0[..|cfs|] == cfs && p.1[..|cfOpts|] == cfOpts
    ensures DEFAULT_COLUMN_FAMILY !in cfs ==>
      p.0[|cfs|] == DEFAULT_COLUMN_FAMILY && p.1[|cfs|] == opts
  {
    if DEFAULT_COLUMN_FAMILY in cfs then (cfs, cfOpts)
    else (cfs + [DEFAULT_COLUMN_FAMILY], cfOpts + [opts])
  }

  /** The checks `open_cf` makes before calling the engine, in their order,
      and the request it then makes: a path with a zero byte, a failed
      directory creation and option lists of the wrong length are errors;
      a column-family name with a zero byte panics in `unwrap`. */
  function PrepareOpen(opts: Ptr, path: Bytes, cfs: seq<Bytes>, cfOpts: seq<Ptr>,
                       dirErr: Option<Bytes>): (r: Outcome<Result<EngineCall>>)
    ensures HasNul(path) ==> r == Returns(Err(CStringConversion))
    ensures !HasNul(path) && dirErr.Some? ==> r == Returns(Err(DirectoryCreation(dirErr.value)))
    ensures !HasNul(path) && dirErr.None? && |cfs| != |cfOpts| ==> r == Returns(Err(LengthMismatch))
    ensures r.Panics? <==>
      !HasNul(path) && dirErr.None? && |cfs| == |cfOpts| &&
      exists i | 0 <= i < |cfs| :: HasNul(cfs[i])
    ensures r.Returns? && r.value.Ok? <==>
      !HasNul(path) && dirErr.None? && |cfs| == |cfOpts| &&
      forall i | 0 <= i < |cfs| :: !HasNul(cfs[i])
    ensures r.Returns? && r.value.Ok? ==>
      r.value.value == OpenColumnFamilies(opts, path, WithDefault(opts, cfs, cfOpts).0,
                                          WithDefault(opts, cfs, cfOpts).1)
  {
    if HasNul(path) then Returns(Err(CStringConversion))
    else if dirErr.Some? then Returns(Err(DirectoryCreation(dirErr.value)))
    else if |cfs| != |cfOpts| then Returns(Err(LengthMismatch))
    else
      var (names, namesOpts) := WithDefault(opts, cfs, cfOpts);
      DefaultHasNoNul();
      if exists i | 0 <= i < |names| :: HasNul(names[i]) then
        assert exists i | 0 <= i < |cfs| :: HasNul(cfs[i]) by {
          var i :| 0 <= i < |names| && HasNul(names[i]);
          assert i < |cfs| && names[i] == cfs[i];
        }
        Panics
      else
        assert forall i | 0 <= i < |cfs| :: !HasNul(cfs[i]) by {
          forall i | 0 <= i < |cfs| ensures !HasNul(cfs[i]) {
            assert names[i] == cfs[i];
          }
        }
        Returns(Ok(OpenColumnFamilies(opts, path, names, namesOpts)))
  }

  /** The binding's handle vector after the engine call: it starts as `n`
      nulls and the engine overwrites a prefix of it. */
  function EngineHandles(n: nat, written: seq<Ptr>): (h: seq<Ptr>)
    ensures |h| == n
    ensures forall i | 0 <= i < n && i < |written| :: h[i] == written[i]
    ensures forall i | |written| <= i < n :: h[i] == NULL
  {
    seq(n, i requires 0 <= i < n => if i < |written| then written[i] else NULL)
  }

  /** The `BTreeMap` built by inserting `names[i] -> handles[i]` in order. */
  function ZipMap(names: seq<Bytes>, handles: seq<Ptr>): (m: map<Bytes, Ptr>)
    requires |names| == |handles|
    ensures m.Keys == set k | k in names
    decreases |names|
  {
    if names == [] then map[]
    else
      var n := |names| - 1;
      assert names == names[..n] + [names[n]];
      ZipMap(names[..n], handles[..n])[names[n] := handles[n]]
  }

  /** Every handle in the map is one of the handles inserted. */
  lemma {:induction false} ZipMapValues(names: seq<Bytes>, handles: seq<Ptr>)
    requires |names| == |handles|
    ensures forall k | k in ZipMap(names, handles) :: ZipMap(names, handles)[k] in handles
    decreases |names|
  {
    if names != [] {
      var n := |names| - 1;
      ZipMapValues(names[..n], handles[..n]);
      assert forall h | h in handles[..n] :: h in handles;
    }
  }

  /** A name is bound to the handle of its last occurrence, as later
      inserts overwrite earlier ones. */
  lemma {:induction false} ZipMapLastWins(names: seq<Bytes>, handles: seq<Ptr>, i: nat)
    requires |names| == |handles| && i < |names|
    requires forall j | i < j < |names| :: names[j] != names[i]
    ensures names[i] in ZipMap(names, handles) && ZipMap(names, handles)[names[i]] == handles[i]
    decreases |names|
  {
    var n := |names| - 1;
    if i < n {
      assert names[..n][i] == names[i] && handles[..n][i] == handles[i];
      ZipMapLastWins(names[..n], handles[..n], i);
    }
  }

  /** With distinct names, every name is bound to the handle at its own
      position. */
  lemma ZipMapDistinct(names: seq<Bytes>, handles: seq<Ptr>)
    requires |names| == |handles|
    requires forall i, j | 0 <= i < j < |names| :: names[i] != names[j]
    ensures forall i | 0 <= i < |names| :: ZipMap(names, handles)[names[i]] == handles[i]
  {
    forall i | 0 <= i < |names| ensures ZipMap(names, handles)[names[i]] == handles[i] {
      ZipMapLastWins(names, handles, i);
    }
  }

  /** The checks `open_cf` makes on the engine's reply, in their order: the
      error out-pointer, then every column-family handle for null, then the
      database handle. */
  function FinishOpen(names: seq<Bytes>, path: Bytes, reply: OpenReply): (r: Result<DbState>)
    ensures reply.err.Some? ==> r == Err(Engine(reply.err.value))
    ensures reply.err.None? && NULL in EngineHandles(|names|, reply.handles) ==>
      r == Err(NullColumnFamilyHandle)
    ensures reply.err.None? && NULL !in EngineHandles(|names|, reply.handles) && reply.db == NULL ==>
      r == Err(NullDatabase)
    ensures r.Ok? <==>
      reply.err.None? && NULL !in EngineHandles(|names|, reply.handles) && reply.db != NULL
    ensures r.Ok? ==>
      r.value.inner == reply.db && r.value.path == path &&
      r.value.cfs == ZipMap(names, EngineHandles(|names|, reply.handles)) &&
      (forall k | k in r.value.cfs :: r.value.cfs[k] != NULL)
  {
    var handles := EngineHandles(|names|, reply.handles);
    if reply.err.Some? then Err(Engine(reply.err.value))
    else if NULL in handles then Err(NullColumnFamilyHandle)
    else if reply.db == NULL then Err(NullDatabase)
    else
      ZipMapValues(names, handles);
      Ok(DbState(reply.db, ZipMap(names, handles), path))
  }

  /** `DB::open_cf` as a whole: the early checks, then (when they pass) the
      engine call and the checks on its reply. */
  function OpenCfSpec(opts: Ptr, path: Bytes, cfs: seq<Bytes>, cfOpts: seq<Ptr>,
                      dirErr: Option<Bytes>, reply: OpenReply): (r: Outcome<Result<DbState>>)
    ensures PrepareOpen(opts, path, cfs, cfOpts, dirErr).Panics? ==> r.Panics?
    ensures PrepareOpen(opts, path, cfs, cfOpts, dirErr).Returns? &&
            PrepareOpen(opts, path, cfs, cfOpts, dirErr).value.Err? ==>
      r == Returns(Err(PrepareOpen(opts, path, cfs, cfOpts, dirErr).value.error))
    ensures r.Returns? && r.value.Ok? ==>
      r.value.value.inner == reply.db && reply.db != NULL && r.value.value.path == path &&
      r.value.value.cfs.Keys == (set k | k in cfs) + {DEFAULT_COLUMN_FAMILY} &&
      forall k | k in r.value.value.cfs :: r.value.value.cfs[k] != NULL
  {
    match PrepareOpen(opts, path, cfs, cfOpts, dirErr)
    case Panics => Panics
    case Returns(Err(e)) => Returns(Err(e))
    case Returns(Ok(call)) =>
      var names := WithDefault(opts, cfs, cfOpts).0;
      assert (set k | k in names) == (set k | k in cfs) + {DEFAULT_COLUMN_FAMILY} by {
        forall k | k in names ensures k in cfs || k == DEFAULT_COLUMN_FAMILY {
          var i :| 0 <= i < |names| && names[i] == k;
          if i < |cfs| {
            assert names[..|cfs|][i] == k;
          }
        }
        forall k | k in cfs ensures k in names {
          var i :| 0 <= i < |cfs| && cfs[i] == k;
          assert names[..|cfs|][i] == k;
        }
      }
      Returns(FinishOpen(call.names, path, reply))
  }

  /** A database opened without naming any column family holds exactly the
      default one, bound to the first handle the engine returned. */
  lemma {:induction false} OpenWithoutFamilies(opts: Ptr, path: Bytes, dirErr: Option<Bytes>, reply: OpenReply)
    requires OpenCfSpec(opts, path, [], [], dirErr, reply).Returns?
    requires OpenCfSpec(opts, path, [], [], dirErr, reply).value.Ok?
    ensures |reply.handles| >= 1
    ensures OpenCfSpec(opts, path, [], [], dirErr, reply).value.value.cfs ==
      map[DEFAULT_COLUMN_FAMILY := reply.handles[0]]
  {
    var names := WithDefault(opts, [], []).0;
    assert names == [DEFAULT_COLUMN_FAMILY];
    var handles := EngineHandles(1, reply.handles);
    assert handles[0] != NULL;
    assert handles == [reply.handles[0]];
  }

  /** `DB::open_cf`: the same checks written as the source writes them, with
      the loop over the returned handles and the loop that builds the map.
      `request` is the engine call made, `None` when the engine is never
      reached. */
  method OpenCf(opts: Ptr, path: Bytes, cfs: seq<Bytes>, cfOpts: seq<Ptr>,
                dirErr: Option<Bytes>, reply: OpenReply)
    returns (r: Outcome<Result<Db>>, request: Option<EngineCall>)
    ensures var p := PrepareOpen(opts, path, cfs, cfOpts, dirErr);
      request == if p.Returns? && p.value.Ok? then Some(p.value.value) else None
    ensures r.Panics? <==> OpenCfSpec(opts, path, cfs, cfOpts, dirErr, reply).Panics?
    ensures r.Returns? ==>
      var spec := OpenCfSpec(opts, path, cfs, cfOpts, dirErr, reply).value;
      (r.value.Err? ==> spec == Err(r.value.error)) &&
      (r.value.Ok? ==> spec.Ok? && fresh(r.value.value) &&
                       r.value.value.State() == spec.value && r.value.value.calls == []) &&
      (spec.Ok? ==> r.value.Ok?)
  {
    request := None;
    if HasNul(path) {
      return Returns(Err(CStringConversion)), None;
    }
    if dirErr.Some? {
      return Returns(Err(DirectoryCreation(dirErr.value))), None;
    }
    if |cfs| != |cfOpts| {
      return Returns(Err(LengthMismatch)), None;
    }
    var cfsV := cfs;
    var cfOptsV := cfOpts;
    if DEFAULT_COLUMN_FAMILY !in cfsV {
      cfsV := cfsV + [DEFAULT_COLUMN_FAMILY];
      cfOptsV := cfOptsV + [opts];
    }
    assert (cfsV, cfOptsV) == WithDefault(opts, cfs, cfOpts);
    if exists i | 0 <= i < |cfsV| :: HasNul(cfsV[i]) {
      return Panics, None;
    }
    request := Some(OpenColumnFamilies(opts, path, cfsV, cfOptsV));
    var handles := EngineHandles(|cfsV|, reply.handles);
    if reply.err.Some? {
      return Returns(Err(Engine(reply.err.value))), request;
    }
    var anyNull := HasNullHandle(handles);
    if anyNull {
      return Returns(Err(NullColumnFamilyHandle)), request;
    }
    var cfMap := BuildMap(cfsV, handles);
    if reply.db == NULL {
      return Returns(Err(NullDatabase)), request;
    }
    var db := new Db(reply.db, cfMap, path);
    r := Returns(Ok(db));
  }

  /** The loop of `open_cf` that looks for a null handle in the vector. */
  method HasNullHandle(handles: seq<Ptr>) returns (found: bool)
    ensures found <==> NULL in handles
  {
    var i := 0;
    while i < |handles|
      invariant 0 <= i <= |handles|
      invariant forall j | 0 <= j < i :: handles[j] != NULL
    {
      if handles[i] == NULL {
        return true;
      }
      i := i + 1;
    }
    found := false;
  }

  /** The loop of `open_cf` that inserts each name with its handle. */
  method BuildMap(names: seq<Bytes>, handles: seq<Ptr>) returns (cfMap: map<Bytes, Ptr>)
    requires |names| == |handles|
    ensures cfMap == ZipMap(names, handles)
  {
    cfMap := map[];
    var i := 0;
    while i < |names|
      invariant 0 <= i <= |names|
      invariant cfMap == ZipMap(names[..i], handles[..i])
    {
      assert names[..i + 1][..i] == names[..i] && handles[..i + 1][..i] == handles[..i];
      cfMap := cfMap[names[i] := handles[i]];
      i := i + 1;
    }
    assert names[..i] == names && handles[..i] == handles;
  }

  /** `DB::open`: `open_cf` with no column families named. */
  method Open(opts: Ptr, path: Bytes, dirErr: Option<Bytes>, reply: OpenReply)
    returns (r: Outcome<Result<Db>>, request: Option<EngineCall>)
    ensures var p := PrepareOpen(opts, path, [], [], dirErr);
      request == if p.Returns? && p.value.Ok? then Some(p.value.value) else None
    ensures r.Panics? <==> OpenCfSpec(opts, path, [], [], dirErr, reply).Panics?
    ensures r.Returns? ==>
      var spec := OpenCfSpec(opts, path, [], [], dirErr, reply).value;
      (r.value.Err? ==> spec == Err(r.value.error)) &&
      (r.value.Ok? ==> spec.Ok? && fresh(r.value.value) &&
                       r.value.value.State() == spec.value && r.value.value.calls == []) &&
      (spec.Ok? ==> r.value.Ok?)
    ensures r.Returns? && r.value.Ok? ==>
      |reply.handles| >= 1 && r.value.value.cfs == map[DEFAULT_COLUMN_FAMILY := reply.handles[0]]
  {
    r, request := OpenCf(opts, path, [], [], dirErr, reply);
    if r.Returns? && r.value.Ok? {
      OpenWithoutFamilies(opts, path, dirErr, reply);
    }
  }

  /** `DB::open_default`: `open` with fresh options (`defaultOpts`, created
      by the binding with `create_if_missing` set). */
  method OpenDefault(defaultOpts: Ptr, path: Bytes, dirErr: Option<Bytes>, reply: OpenReply)
    returns (r: Outcome<Result<Db>>, request: Option<EngineCall>)
    ensures var p := PrepareOpen(defaultOpts, path, [], [], dirErr);
      request == if p.Returns? && p.value.Ok? then Some(p.value.value) else None
    ensures r.Panics? <==> OpenCfSpec(defaultOpts, path, [], [], dirErr, reply).Panics?
    ensures r.Returns? ==>
      var spec := OpenCfSpec(defaultOpts, path, [], [], dirErr, reply).value;
      (r.value.Err? ==> spec == Err(r.value.error)) &&
      (r.value.Ok? ==> spec.Ok? && fresh(r.value.value) &&
                       r.value.value.State() == spec.value && r.value.value.calls == []) &&
      (spec.Ok? ==> r.value.Ok?)
    ensures r.Returns? && r.value.Ok? ==>
      |reply.handles| >= 1 && r.value.value.cfs == map[DEFAULT_COLUMN_FAMILY := reply.handles[0]]
  {
    r, request := Open(defaultOpts, path, dirErr, reply);
  }

  // ---------------------------------------------------------------------
  // Column families

  /** What `create_cf` does to the map and what it returns; `called` says
      whether the engine was asked. */
  datatype CreateStep = CreateStep(result: Result<Ptr>, cfs: map<Bytes, Ptr>, called: bool)

  /** `create_cf` as written: after the engine call the returned handle is
      stored under `name` before the error out-pointer is looked at. */
  function CreateAsWritten(cfs: map<Bytes, Ptr>, name: Bytes, handle: Ptr, err: Option<Bytes>): (s: CreateStep)
    ensures HasNul(name) ==> s == CreateStep(Err(CStringConversion), cfs, false)
    ensures !HasNul(name) ==> s.called && s.cfs.Keys == cfs.Keys + {name} && s.cfs[name] == handle
    ensures forall k | k in cfs && k != name :: k in s.cfs && s.cfs[k] == cfs[k]
    ensures s.result.Ok? <==> !HasNul(name) && err.None?
    ensures s.result.Ok? ==> s.result.value == handle
    ensures !HasNul(name) && err.Some? ==> s.result == Err(Engine(err.value))
  {
    if HasNul(name) then CreateStep(Err(CStringConversion), cfs, false)
    else
      var cfs' := cfs[name := handle];
      if err.Some? then CreateStep(Err(Engine(err.value)), cfs', true)
      else CreateStep(Ok(handle), cfs', true)
  }

  /** `create_cf` as intended: the handle is stored only when the engine
      reports success. */
  function CreateChecked(cfs: map<Bytes, Ptr>, name: Bytes, handle: Ptr, err: Option<Bytes>): (s: CreateStep)
    ensures s.called <==> !HasNul(name)
    ensures s.result.Err? ==> s.cfs == cfs
    ensures s.result.Ok? <==> !HasNul(name) && err.None?
    ensures s.result.Ok? ==>
      s.result.value == handle && s.cfs.Keys == cfs.Keys + {name} && s.cfs[name] == handle &&
      forall k | k in cfs && k != name :: s.cfs[k] == cfs[k]
    ensures HasNul(name) ==> s.result == Err(CStringConversion)
    ensures !HasNul(name) && err.Some? ==> s.result == Err(Engine(err.value))
  {
    if HasNul(name) then CreateStep(Err(CStringConversion), cfs, false)
    else if err.Some? then CreateStep(Err(Engine(err.value)), cfs, true)
    else CreateStep(Ok(handle), cfs[name := handle], true)
  }

  /** The two agree on everything except a failed engine call. */
  lemma {:induction false} CreateAgreesUnlessEngineFails(cfs: map<Bytes, Ptr>, name: Bytes, handle: Ptr, err: Option<Bytes>)
    ensures CreateAsWritten(cfs, name, handle, err).result == CreateChecked(cfs, name, handle, err).result
    ensures CreateAsWritten(cfs, name, handle, err).called == CreateChecked(cfs, name, handle, err).called
    ensures err.None? || HasNul(name) ==> CreateAsWritten(cfs, name, handle, err) == CreateChecked(cfs, name, handle, err)
  {
    if !HasNul(name) && err.None? {
      assert CreateAsWritten(cfs, name, handle, err).cfs == cfs[name := handle];
    }
  }

  /** As written, a failed `create_cf("default")` whose engine call returned
      a null handle replaces the good default handle with null; the checked
      version keeps it. */
  lemma {:induction false} FailedCreateLosesDefaultHandle(cfs: map<Bytes, Ptr>, good: Ptr, message: Bytes)
    requires DEFAULT_COLUMN_FAMILY in cfs && cfs[DEFAULT_COLUMN_FAMILY] == good && good != NULL
    ensures CreateAsWritten(cfs, DEFAULT_COLUMN_FAMILY, NULL, Some(message)).result.Err?
    ensures CreateAsWritten(cfs, DEFAULT_COLUMN_FAMILY, NULL, Some(message)).cfs[DEFAULT_COLUMN_FAMILY] == NULL
    ensures CreateChecked(cfs, DEFAULT_COLUMN_FAMILY, NULL, Some(message)).cfs[DEFAULT_COLUMN_FAMILY] == good
  {
    DefaultHasNoNul();
  }

  /** A run of `create_cf` calls: each is the name asked for, the handle the
      engine returns and its error out-pointer. */
  datatype CreateCall = CreateCall(name: Bytes, handle: Ptr, err: Option<Bytes>)

  /** The map after a run of `create_cf` calls, as written or check-first. */
  function CreateAll(cfs: map<Bytes, Ptr>, run: seq<CreateCall>, checked: bool): (m: map<Bytes, Ptr>)
    decreases |run|
  {
    if run == [] then cfs
    else
      var c := run[0];
      var s := if checked then CreateChecked(cfs, c.name, c.handle, c.err)
               else CreateAsWritten(cfs, c.name, c.handle, c.err);
      CreateAll(s.cfs, run[1..], checked)
  }

  /** Neither version of `create_cf` ever removes a family, and `drop_cf`
      leaves the map as it is, so `"default"` (put in by `open_cf`) stays a
      key of the map for the database's whole life. With the check-first
      version a run of failed calls also leaves every handle as it was. */
  lemma {:induction false} CreatesKeepFamilies(cfs: map<Bytes, Ptr>, run: seq<CreateCall>, checked: bool)
    ensures cfs.Keys <= CreateAll(cfs, run, checked).Keys
    ensures DEFAULT_COLUMN_FAMILY in cfs ==> DEFAULT_COLUMN_FAMILY in CreateAll(cfs, run, checked)
    ensures checked && (forall i | 0 <= i < |run| :: run[i].err.Some?) ==> CreateAll(cfs, run, checked) == cfs
    decreases |run|
  {
    if run != [] {
      var c := run[0];
      var s := if checked then CreateChecked(cfs, c.name, c.handle, c.err)
               else CreateAsWritten(cfs, c.name, c.handle, c.err);
      CreatesKeepFamilies(s.cfs, run[1..], checked);
      if checked && (forall i | 0 <= i < |run| :: run[i].err.Some?) {
        assert run[0].err.Some?;
        assert forall i | 0 <= i < |run[1..]| :: run[1..][i].err.Some? by {
          forall i | 0 <= i < |run[1..]| ensures run[1..][i].err.Some? {
            assert run[1..][i] == run[i + 1];
          }
        }
      }
    }
  }

  class Db {
    /** The engine's database handle. */
    const inner: Ptr
    /** Column-family name to engine handle. */
    var cfs: map<Bytes, Ptr>
    const path: Bytes
    /** Engine calls made through this database since it was opened. */
    var calls: seq<EngineCall>

    constructor (inner: Ptr, cfs: map<Bytes, Ptr>, path: Bytes)
      ensures this.inner == inner && this.cfs == cfs && this.path == path && calls == []
    {
      this.inner := inner;
      this.cfs := cfs;
      this.path := path;
      calls := [];
    }

    function State(): (s: DbState)
      reads this
      ensures s.inner == inner && s.cfs == cfs && s.path == path
    {
      DbState(inner, cfs, path)
    }

    /** The corrected `create_cf`: the error is checked before the map is
        touched, so a failed call leaves the map as it was. */
    method CreateCfChecked(name: Bytes, cfOpts: Ptr, handle: Ptr, err: Option<Bytes>) returns (r: Result<Ptr>)
      modifies this
      ensures var s := CreateChecked(old(cfs), name, handle, err);
        r == s.result && cfs == s.cfs &&
        calls == old(calls) + (if s.called then [CreateColumnFamily(cfOpts, name)] else [])
    {
      if HasNul(name) {
        return Err(CStringConversion);
      }
      calls := calls + [CreateColumnFamily(cfOpts, name)];
      if err.Some? {
        return Err(Engine(err.value));
      }
      cfs := cfs[name := handle];
      r := Ok(handle);
    }

    /** `create_cf` as the source orders it: the returned handle is stored
        under the name before the error is checked, so a failed family stays
        in the map. */
    method CreateCf(name: Bytes, cfOpts: Ptr, handle: Ptr, err: Option<Bytes>) returns (r: Result<Ptr>)
      modifies this
      ensures var s := CreateAsWritten(old(cfs), name, handle, err);
        r == s.result && cfs == s.cfs &&
        calls == old(calls) + (if s.called then [CreateColumnFamily(cfOpts, name)] else [])
    {
      if HasNul(name) {
        return Err(CStringConversion);
      }
      calls := calls + [CreateColumnFamily(cfOpts, name)];
      cfs := cfs[name := handle];
      if err.Some? {
        return Err(Engine(err.value));
      }
      r := Ok(handle);
    }

    /** `drop_cf`: an unknown name is refused without asking the engine;
        otherwise the engine's answer is returned. The map is never changed,
        so a dropped family's handle stays in it. */
    method DropCf(name: Bytes, err: Option<Bytes>) returns (r: Result<()>)
      modifies this
      ensures cfs == old(cfs)
      ensures name !in cfs ==> r == Err(InvalidColumnFamily(name)) && calls == old(calls)
      ensures name in cfs ==>
        r == CheckError(err) && calls == old(calls) + [DropColumnFamily(cfs[name])]
    {
      if name !in cfs {
        return Err(InvalidColumnFamily(name));
      }
      calls := calls + [DropColumnFamily(cfs[name])];
      r := CheckError(err);
    }

    /** `cf_handle`: the handle stored under `name`, if any. */
    function CfHandle(name: Bytes): (h: Option<Ptr>)
      reads this
      ensures h.Some? <==> name in cfs
      ensures h.Some? ==> h.value == cfs[name]
    {
      if name in cfs then Some(cfs[name]) else None
    }

    /** `cf_names`: the map's keys as its in-order traversal yields them,
        i.e. each once, ascending. */
    method CfNames() returns (names: seq<Bytes>)
      ensures names == SortedKeys(cfs.Keys)
      ensures StrictlySorted(names) && |names| == |cfs|
      ensures forall k :: k in names <==> k in cfs
    {
      names := InOrder(cfs.Keys);
    }

    /** `flush`: flush options are created, told whether to wait, used and
        destroyed, and only then is the error looked at. */
    method Flush(sync: bool, flushOpts: Ptr, err: Option<Bytes>) returns (r: Result<()>)
      modifies this
      ensures cfs == old(cfs)
      ensures calls == old(calls) + [FlushOptionsCreate, FlushOptionsSetWait(flushOpts, sync),
                                     EngineCall.Flush(flushOpts), FlushOptionsDestroy(flushOpts)]
      ensures r == CheckError(err)
    {
      calls := calls + [FlushOptionsCreate];
      calls := calls + [FlushOptionsSetWait(flushOpts, sync)];
      calls := calls + [EngineCall.Flush(flushOpts)];
      calls := calls + [FlushOptionsDestroy(flushOpts)];
      r := CheckError(err);
    }

    /** `Drop for DB`: every column-family handle in the map is destroyed,
        in key order, and then the database is closed. */
    method Drop()
      modifies this
      ensures cfs == old(cfs)
      ensures calls == old(calls) + DestroyAll(cfs, SortedKeys(cfs.Keys)) + [Close]
      ensures forall k | k in cfs :: ColumnFamilyHandleDestroy(cfs[k]) in calls[|old(calls)|..|calls| - 1]
    {
      var names := CfNames();
      ghost var start := calls;
      DestroyHandles(names);
      ghost var destroyed := DestroyAll(cfs, names);
      calls := calls + [Close];
      DestroyAllCovers(cfs, names);
      assert calls[|start|..|calls| - 1] == destroyed;
    }

    /** The loop of `Drop for DB` over the map's handles. */
    method DestroyHandles(names: seq<Bytes>)
      requires forall k | k in names :: k in cfs
      modifies this
      ensures cfs == old(cfs) && calls == old(calls) + DestroyAll(cfs, names)
    {
      var i := 0;
      while i < |names|
        invariant 0 <= i <= |names| && cfs == old(cfs)
        invariant calls == old(calls) + DestroyAll(cfs, names[..i])
      {
        DestroyAllSnoc(cfs, names, i);
        calls := calls + [ColumnFamilyHandleDestroy(cfs[names[i]])];
        i := i + 1;
      }
      assert names[..i] == names;
    }
  }

  /** Taking the least remaining key moves it from the rest to the front
      part of the ascending enumeration. */
  lemma InOrderStep(names: seq<Bytes>, rest: set<Bytes>, whole: seq<Bytes>, m: Bytes)
    requires names + SortedKeys(rest) == whole && IsLeast(m, rest)
    ensures (names + [m]) + SortedKeys(rest - {m}) == whole
  {
    SortedKeysUnfold(rest, m);
  }

  /** The in-order traversal of a `BTreeMap`'s keys: the least remaining key
      each time. */
  method InOrder(keys: set<Bytes>) returns (names: seq<Bytes>)
    ensures names == SortedKeys(keys)
  {
    var rest := keys;
    names := [];
    ghost var whole := SortedKeys(keys);
    while rest != {}
      invariant names + SortedKeys(rest) == whole
      decreases rest
    {
      LeastExists(rest);
      var m :| IsLeast(m, rest);
      InOrderStep(names, rest, whole, m);
      names := names + [m];
      rest := rest - {m};
    }
    assert names + [] == names;
  }

  /** The destroy calls for the handles stored under `keys`, in that order. */
  function DestroyAll(cfs: map<Bytes, Ptr>, keys: seq<Bytes>): (d: seq<EngineCall>)
    requires forall k | k in keys :: k in cfs
    ensures |d| == |keys|
    ensures forall i | 0 <= i < |keys| :: d[i] == ColumnFamilyHandleDestroy(cfs[keys[i]])
    decreases |keys|
  {
    if keys == [] then []
    else
      var n := |keys| - 1;
      assert forall k | k in keys[..n] :: k in keys;
      DestroyAll(cfs, keys[..n]) + [ColumnFamilyHandleDestroy(cfs[keys[n]])]
  }

  lemma DestroyAllSnoc(cfs: map<Bytes, Ptr>, keys: seq<Bytes>, i: nat)
    requires i < |keys| && forall k | k in keys :: k in cfs
    ensures forall k | k in keys[..i] :: k in cfs
    ensures forall k | k in keys[..i + 1] :: k in cfs
    ensures DestroyAll(cfs, keys[..i + 1]) ==
      DestroyAll(cfs, keys[..i]) + [ColumnFamilyHandleDestroy(cfs[keys[i]])]
  {
    assert keys[..i + 1][..i] == keys[..i];
  }

  /** Destroying along a list of keys that includes every key of the map
      destroys every handle in it. */
  lemma {:induction false} DestroyAllCovers(cfs: map<Bytes, Ptr>, keys: seq<Bytes>)
    requires forall k | k in keys :: k in cfs
    requires forall k | k in cfs :: k in keys
    ensures forall k | k in cfs :: ColumnFamilyHandleDestroy(cfs[k]) in DestroyAll(cfs, keys)
  {
    var d := DestroyAll(cfs, keys);
    forall k | k in cfs ensures ColumnFamilyHandleDestroy(cfs[k]) in d {
      var i :| 0 <= i < |keys| && keys[i] == k;
      assert d[i] == ColumnFamilyHandleDestroy(cfs[k]);
    }
  }

  // ---------------------------------------------------------------------
  // Size estimates

  /** The request `get_approximate_sizes_cfopt` passes to
      `rocksdb_approximate_sizes(_cf)`: the count as a C `int`, then four
      parallel arrays of start keys, their lengths, end keys and theirs. */
  datatype SizesRequest = SizesRequest(
    cf: Option<Ptr>, count: int,
    startKeys: seq<Bytes>, startLens: seq<nat>, endKeys: seq<Bytes>, endLens: seq<nat>)

  const I32_MODULUS: int := 0x1_0000_0000

  /** `usize as i32`: the low 32 bits read as two's complement. */
  function AsI32(n: nat): (v: int)
    ensures -0x8000_0000 <= v < 0x8000_0000
    ensures n < 0x8000_0000 ==> v == n
    ensures v <= n
    ensures (n - v) % I32_MODULUS == 0
  {
    var low := n % I32_MODULUS;
    if low < 0x8000_0000 then low else low - I32_MODULUS
  }

  /** How many slots of the size buffer the engine fills: it walks the first
      `count` ranges, none when the count is not positive. */
  function Filled(ranges: nat): (k: nat)
    ensures k <= ranges
    ensures ranges < 0x8000_0000 ==> k == ranges
  {
    if AsI32(ranges) <= 0 then 0 else AsI32(ranges)
  }

  /** `get_approximate_sizes_cfopt`: marshals the ranges, hands the engine a
      zeroed buffer with one slot per range and returns it. The engine's
      estimate for a range is the parameter `estimate`. */
  method GetApproximateSizesCfOpt(cf: Option<Ptr>, ranges: seq<OrderedRange>,
                                  estimate: (Option<Ptr>, Bytes, Bytes) -> nat)
    returns (sizes: seq<nat>, request: SizesRequest)
    ensures |sizes| == |ranges|
    ensures forall i | 0 <= i < |ranges| ::
      sizes[i] == if i < Filled(|ranges|) then estimate(cf, ranges[i].startKey, ranges[i].endKey) else 0
    ensures request.cf == cf && request.count == AsI32(|ranges|)
    ensures |request.startKeys| == |request.startLens| == |request.endKeys| == |request.endLens| == |ranges|
    ensures forall i | 0 <= i < |ranges| ::
      request.startKeys[i] == ranges[i].startKey && request.startLens[i] == |ranges[i].startKey| &&
      request.endKeys[i] == ranges[i].endKey && request.endLens[i] == |ranges[i].endKey|
  {
    var n := |ranges|;
    var startKeys := seq(n, i requires 0 <= i < n => ranges[i].startKey);
    var startLens := seq(n, i requires 0 <= i < n => |ranges[i].startKey|);
    var endKeys := seq(n, i requires 0 <= i < n => ranges[i].endKey);
    var endLens := seq(n, i requires 0 <= i < n => |ranges[i].endKey|);
    var buffer := new nat[n](_ => 0);
    request := SizesRequest(cf, AsI32(n), startKeys, startLens, endKeys, endLens);
    // The engine writes its estimates through the buffer pointer.
    var k := Filled(n);
    forall i | 0 <= i < k {
      buffer[i] := estimate(cf, startKeys[i], endKeys[i]);
    }
    sizes := buffer[..];
  }
}
