/** `WriteBatch`: an engine-side buffer of updates that the binding appends
    to through `&self` (the mutation happens behind the FFI handle) and that
    a later `DB::write` applies atomically. The model keeps the buffered
    records themselves; the engine's `rocksdb_writebatch_count` is their
    number. */
module Batches {
  import opened ByteStrings
  import opened Wrappers
  import opened Native

  /** One buffered record; `cf` is `None` for the default column family. */
  datatype BatchOp =
    | Put(cf: Option<Ptr>, key: Bytes, value: Bytes)
    | Merge(cf: Option<Ptr>, key: Bytes, value: Bytes)
    | Delete(cf: Option<Ptr>, key: Bytes)

  class WriteBatch {
    /** The engine handle from `rocksdb_writebatch_create`. */
    const inner: Ptr
    var ops: seq<BatchOp>

    /** `WriteBatch::new` / `default`: a fresh, empty engine batch. */
    constructor (handle: Ptr)
      ensures inner == handle && ops == []
    {
      inner := handle;
      ops := [];
    }

    /** `count`: the number of records buffered so far. */
    function Count(): (n: nat)
      reads this
      ensures n == |ops|
    {
      |ops|
    }

    /** `is_empty`: nothing buffered. */
    predicate IsEmpty()
      reads this
      ensures IsEmpty() <==> ops == []
    {
      Count() == 0
    }

    /** `Writable::put`: buffers a put into the default family; never fails. */
    method Put(key: Bytes, value: Bytes) returns (r: Result<()>)
      modifies this
      ensures r == Ok(()) && ops == old(ops) + [BatchOp.Put(None, key, value)]
      ensures Count() == old(Count()) + 1 && !IsEmpty()
    {
      ops := ops + [BatchOp.Put(None, key, value)];
      r := Ok(());
    }

    /** `Writable::put_cf`: buffers a put into the family behind `cf`. */
    method PutCf(cf: Ptr, key: Bytes, value: Bytes) returns (r: Result<()>)
      modifies this
      ensures r == Ok(()) && ops == old(ops) + [BatchOp.Put(Some(cf), key, value)]
      ensures Count() == old(Count()) + 1 && !IsEmpty()
    {
      ops := ops + [BatchOp.Put(Some(cf), key, value)];
      r := Ok(());
    }

    /** `Writable::merge`: buffers a merge operand for the default family. */
    method Merge(key: Bytes, value: Bytes) returns (r: Result<()>)
      modifies this
      ensures r == Ok(()) && ops == old(ops) + [BatchOp.Merge(None, key, value)]
      ensures Count() == old(Count()) + 1 && !IsEmpty()
    {
      ops := ops + [BatchOp.Merge(None, key, value)];
      r := Ok(());
    }

    /** `Writable::merge_cf`: buffers a merge operand for the family `cf`. */
    method MergeCf(cf: Ptr, key: Bytes, value: Bytes) returns (r: Result<()>)
      modifies this
      ensures r == Ok(()) && ops == old(ops) + [BatchOp.Merge(Some(cf), key, value)]
      ensures Count() == old(Count()) + 1 && !IsEmpty()
    {
      ops := ops + [BatchOp.Merge(Some(cf), key, value)];
      r := Ok(());
    }

    /** `Writable::delete`: buffers a deletion from the default family. */
    method Delete(key: Bytes) returns (r: Result<()>)
      modifies this
      ensures r == Ok(()) && ops == old(ops) + [BatchOp.Delete(None, key)]
      ensures Count() == old(Count()) + 1 && !IsEmpty()
    {
      ops := ops + [BatchOp.Delete(None, key)];
      r := Ok(());
    }

    /** `Writable::delete_cf`: buffers a deletion from the family `cf`. */
    method DeleteCf(cf: Ptr, key: Bytes) returns (r: Result<()>)
      modifies this
      ensures r == Ok(()) && ops == old(ops) + [BatchOp.Delete(Some(cf), key)]
      ensures Count() == old(Count()) + 1 && !IsEmpty()
    {
      ops := ops + [BatchOp.Delete(Some(cf), key)];
      r := Ok(());
    }
  }

  /** The batch protocol the binding's own batch test relies on: a new batch
      is empty, and one buffered put or delete makes it hold exactly one
      record, whatever the key. */
  method BatchCounts(key: Bytes, value: Bytes)
    returns (fresh0: nat, empty0: bool, afterPut: nat, emptyAfterPut: bool, afterDelete: nat)
    ensures fresh0 == 0 && empty0
    ensures afterPut == 1 && !emptyAfterPut
    ensures afterDelete == 1
  {
    var batch := new WriteBatch(1);
    fresh0 := batch.Count();
    empty0 := batch.IsEmpty();
    var _ := batch.Put(key, value);
    afterPut := batch.Count();
    emptyAfterPut := batch.IsEmpty();
    var second := new WriteBatch(2);
    var _ := second.Delete(key);
    afterDelete := second.Count();
  }
}
