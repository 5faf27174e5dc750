/** What the binding sees of the engine's C interface: opaque handles, the
    error out-pointer, and the error values the binding itself produces. */
module Native {
  import opened ByteStrings
  import opened Wrappers

  /** An engine-side pointer (database, column family, iterator, options,
      batch, buffer); 0 is the null pointer. */
  type Ptr = nat

  const NULL: Ptr := 0

  /** The errors the binding reports; the source carries each as a `String`. */
  datatype Error =
    | CStringConversion          // a path or name holds a zero byte
    | DirectoryCreation(detail: Bytes)  // fs::create_dir_all failed; detail is its Debug text
    | LengthMismatch             // CF names and CF options differ in number
    | Engine(message: Bytes)     // the engine set the error out-pointer
    | NullColumnFamilyHandle     // open returned a null CF handle without an error
    | NullDatabase               // open returned a null database without an error
    | InvalidColumnFamily(name: Bytes)  // "Invalid column family: " followed by the name
    | NullReadOptions            // the read options handle is null

  datatype Result<+T> = Ok(value: T) | Err(error: Error)

  /** The error bridge: after an engine call, a set error out-pointer (the
      engine's message) becomes `Err`, a null one `Ok`. */
  function CheckError(err: Option<Bytes>): (r: Result<()>)
    ensures r.Ok? <==> err.None?
    ensures err.Some? ==> r.error == Engine(err.value)
  {
    match err
    case None => Ok(())
    case Some(message) => Err(Engine(message))
  }
}
