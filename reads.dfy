/** Point reads and property queries: how the binding turns what the engine
    hands back (error out-pointer, value pointer and length, property
    string) into its results. */
module Reads {
  import opened ByteStrings
  import opened Wrappers
  import opened Native
  import opened Utf8
  import opened Decimal

  /** An owned copy of a value returned by a point read (`DBVector`): the
      engine's buffer and the bytes it holds. */
  datatype DbVector = DbVector(base: Ptr, contents: Bytes)

  /** `DBVector::from_c`: takes ownership of the engine's buffer at `val`
      holding the `|value|` bytes the engine reported. */
  function FromC(val: Ptr, value: Bytes): (v: DbVector)
    ensures v.base == val && Deref(v) == value && |Deref(v)| == |value|
  {
    DbVector(val, value)
  }

  /** `Deref for DBVector`: the borrowed byte view of the buffer. */
  function Deref(v: DbVector): (b: Bytes)
    ensures b == v.contents
  {
    v.contents
  }

  /** `DBVector::to_utf8`: the text, or `None` when the bytes are not UTF-8. */
  function ToUtf8(v: DbVector): (r: Option<Bytes>)
    ensures r.Some? <==> IsUtf8(Deref(v))
    ensures r.Some? ==> r.value == Deref(v)
  {
    if IsUtf8(v.contents) then Some(v.contents) else None
  }

  /** What `rocksdb_get` / `rocksdb_get_cf` hand back: the error out-pointer,
      the value pointer and the bytes behind it (their number is the length
      the engine writes through `val_len`). */
  datatype GetReply = GetReply(err: Option<Bytes>, val: Ptr, value: Bytes)

  /** `get_opt` and `get_cf_opt` (identical apart from the engine entry point
      they call, which only receives the column family): null read options
      are refused before the engine is asked; then the error wins over any
      value; then a null value is an absent key. `get` and `get_cf` call it
      with freshly created read options. */
  function GetOpt(readOpts: Ptr, reply: GetReply): (r: Result<Option<DbVector>>)
    ensures readOpts == NULL ==> r == Err(NullReadOptions)
    ensures readOpts != NULL && reply.err.Some? ==> r == Err(Engine(reply.err.value))
    ensures r.Ok? <==> readOpts != NULL && reply.err.None?
    ensures r == Ok(None) <==> readOpts != NULL && reply.err.None? && reply.val == NULL
    ensures r.Ok? && r.value.Some? ==>
      reply.val != NULL && r.value.value.base == reply.val && Deref(r.value.value) == reply.value
  {
    if readOpts == NULL then Err(NullReadOptions)
    else if reply.err.Some? then Err(Engine(reply.err.value))
    else if reply.val == NULL then Ok(None)
    else Ok(Some(FromC(reply.val, reply.value)))
  }

  /** `get_property_value_cf_opt`: `reply` is the buffer behind the pointer
      the engine returns (`None` for a null pointer); the text is read from
      it up to its first zero byte. A property name with a zero byte and a
      non-UTF-8 text make the `unwrap` calls panic. */
  function PropertyValue(name: Bytes, reply: Option<Bytes>): (r: Outcome<Option<Bytes>>)
    ensures r.Panics? <==> HasNul(name) || (reply.Some? && !IsUtf8(CStrPrefix(reply.value)))
    ensures r == Returns(None) <==> !HasNul(name) && reply.None?
    ensures r.Returns? && r.value.Some? ==>
      reply.Some? && r.value.value == CStrPrefix(reply.value) &&
      IsUtf8(r.value.value) && !HasNul(r.value.value)
  {
    if HasNul(name) then Panics
    else if reply.None? then Returns(None)
    else
      var text := CStrPrefix(reply.value);
      if !IsUtf8(text) then Panics
      else Returns(Some(text))
  }

  /** `get_property_int_cf_opt`: the property's text parsed as a `u64`;
      `None` when the property is absent or its text does not parse. */
  function PropertyInt(name: Bytes, reply: Option<Bytes>): (r: Outcome<Option<nat>>)
    ensures r.Panics? <==> PropertyValue(name, reply).Panics?
    ensures r.Returns? && r.value.Some? <==>
      !HasNul(name) && reply.Some? && IsUtf8(CStrPrefix(reply.value)) &&
      IsU64Text(CStrPrefix(reply.value))
    ensures r.Returns? && r.value.Some? ==>
      r.value.value == DigitsValue(Unsigned(CStrPrefix(reply.value))) && r.value.value <= U64_MAX
  {
    match PropertyValue(name, reply)
    case Panics => Panics
    case Returns(None) => Returns(None)
    case Returns(Some(text)) => Returns(ParseU64(text))
  }

  /** An integer property the engine renders in decimal reads back as the
      same number. */
  lemma PropertyIntOfRendered(name: Bytes, n: nat)
    requires !HasNul(name) && n <= U64_MAX
    ensures PropertyInt(name, Some(Render(n))) == Returns(Some(n))
  {
    var s := Render(n);
    assert !HasNul(s) by {
      forall i | 0 <= i < |s| ensures s[i] != 0 { assert IsDigit(s[i]); }
    }
    assert IsAscii(s) by {
      forall i | 0 <= i < |s| ensures s[i] < 0x80 { assert IsDigit(s[i]); }
    }
    AsciiIsUtf8(s);
    ParseRender(n);
  }
}
