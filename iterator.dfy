/** `DBIterator`: the binding's wrapper over an engine iterator, modelled over
    an abstract cursor. The engine's view of one column family is a strictly
    ascending sequence of keys with their values (fixed for the iterator's
    lifetime, as the engine iterates over an implicit snapshot), and the
    cursor is a position in it that may fall off either end. */
module Iteration {
  import opened ByteStrings
  import opened Wrappers

  /** Where `seek` positions: first key, last key, or first key at or after. */
  datatype SeekKey = Start | End | Key(key: Bytes)

  type Kv = (Bytes, Bytes)

  /** The engine's positioning for `rocksdb_iter_seek`: the index of the
      first key not below `k`, or `|keys|` when every key is below it. */
  function LowerBound(keys: seq<Bytes>, k: Bytes): (i: nat)
    ensures i <= |keys|
    ensures forall j | 0 <= j < i :: LexLt(keys[j], k)
    ensures i < |keys| ==> LexLe(k, keys[i])
    decreases |keys|
  {
    if keys == [] then 0
    else if !LexLt(keys[0], k) then
      NotBelow(keys[0], k);
      0
    else
      1 + LowerBound(keys[1..], k)
  }

  /** On sorted keys the lower bound splits them: everything before it is
      below `k`, everything from it on is at or above `k`. */
  lemma LowerBoundSplits(keys: seq<Bytes>, k: Bytes)
    requires StrictlySorted(keys)
    ensures forall j | LowerBound(keys, k) <= j < |keys| :: LexLe(k, keys[j])
  {
    var i := LowerBound(keys, k);
    forall j | i <= j < |keys| ensures LexLe(k, keys[j]) {
      if j > i && k != keys[i] {
        LexLtTransitive(k, keys[i], keys[j]);
      }
    }
  }

  /** The entries in key order, as a scan from the start yields them. */
  function Entries(keys: seq<Bytes>, values: seq<Bytes>): (kvs: seq<Kv>)
    requires |values| == |keys|
  {
    seq(|keys|, i requires 0 <= i < |keys| => (keys[i], values[i]))
  }

  class DbIterator {
    const keys: seq<Bytes>
    const values: seq<Bytes>
    /** -1 before the first key (and before any seek), `|keys|` past the last. */
    var pos: int

    ghost predicate Inv()
      reads this
    {
      StrictlySorted(keys) && |values| == |keys| && -1 <= pos <= |keys|
    }

    /** `DBIterator::new` / `new_cf`: an engine iterator over one column
        family's entries, not yet positioned. */
    constructor (keys: seq<Bytes>, values: seq<Bytes>)
      requires StrictlySorted(keys) && |values| == |keys|
      ensures Inv() && this.keys == keys && this.values == values
      ensures !Valid()
    {
      this.keys := keys;
      this.values := values;
      pos := -1;
    }

    /** `valid()`: the cursor is on an entry. */
    predicate Valid()
      reads this
      ensures Valid() <==> 0 <= pos < |keys|
    {
      0 <= pos < |keys|
    }

    /** `seek`: positions the cursor and returns the validity afterwards. */
    method Seek(target: SeekKey) returns (valid: bool)
      requires Inv()
      modifies this
      ensures Inv() && valid == Valid()
      ensures target.Start? ==> pos == 0 && (valid <==> |keys| > 0)
      ensures target.End? ==> pos == |keys| - 1 && (valid <==> |keys| > 0)
      ensures target.Key? ==> pos == LowerBound(keys, target.key)
      ensures target.Key? ==>
        (valid ==> LexLe(target.key, keys[pos])) &&
        (forall j | 0 <= j < |keys| && j < pos :: LexLt(keys[j], target.key)) &&
        (!valid ==> pos == |keys|)
    {
      match target {
        case Start =>
          pos := 0;
        case End =>
          pos := |keys| - 1;
        case Key(k) =>
          pos := LowerBound(keys, k);
      }
      valid := Valid();
    }

    /** `next`: one step forward on a positioned cursor (the engine requires
        one); returns the validity afterwards. */
    method Next() returns (valid: bool)
      requires Inv() && Valid()
      modifies this
      ensures Inv() && pos == old(pos) + 1
      ensures valid == Valid() && (valid <==> old(pos) + 1 < |keys|)
    {
      pos := pos + 1;
      valid := Valid();
    }

    /** `prev`: one step back on a positioned cursor; returns the validity. */
    method Prev() returns (valid: bool)
      requires Inv() && Valid()
      modifies this
      ensures Inv() && pos == old(pos) - 1
      ensures valid == Valid() && (valid <==> old(pos) > 0)
    {
      pos := pos - 1;
      valid := Valid();
    }

    /** `key()`: asserts validity, then borrows the current key. */
    function Key(): (k: Bytes)
      requires Valid()
      reads this
      ensures k == keys[pos]
    {
      keys[pos]
    }

    /** `value()`: asserts validity, then borrows the current value. */
    function Value(): (v: Bytes)
      requires Inv() && Valid()
      reads this
      ensures v == values[pos]
    {
      values[pos]
    }

    /** `kv()`: an owned copy of the current entry, `None` off the entries. */
    function Kv(): (r: Option<Kv>)
      requires Inv()
      reads this
      ensures r.None? <==> !Valid()
      ensures r.Some? ==> r.value == (keys[pos], values[pos])
    {
      if Valid() then Some((Key(), Value())) else None
    }

    /** `Iterator::next` on `&mut DBIterator`: yields the current entry and
        steps past it; off the entries it yields `None` and leaves the
        cursor where it is. */
    method NextItem() returns (item: Option<Kv>)
      requires Inv()
      modifies this
      ensures Inv()
      ensures item == old(Kv())
      ensures pos == if old(Valid()) then old(pos) + 1 else old(pos)
    {
      item := Kv();
      if item.Some? {
        var _ := Next();
      }
    }
  }

  /** Seeking to the start and pulling until `None` yields every entry once,
      in strictly ascending key order. */
  method ScanFromStart(it: DbIterator) returns (items: seq<Kv>)
    requires it.Inv()
    modifies it
    ensures items == Entries(it.keys, it.values)
    ensures forall i, j | 0 <= i < j < |items| :: LexLt(items[i].0, items[j].0)
  {
    var _ := it.Seek(Start);
    items := [];
    while true
      invariant it.Inv() && 0 <= it.pos <= |it.keys|
      invariant items == Entries(it.keys, it.values)[..it.pos]
      decreases |it.keys| - it.pos
    {
      var item := it.NextItem();
      if item.None? {
        break;
      }
      items := items + [item.value];
    }
    assert items == Entries(it.keys, it.values);
  }

  /** Seeking to the end and stepping back yields every entry once, in
      strictly descending key order. */
  method ScanFromEnd(it: DbIterator) returns (items: seq<Kv>)
    requires it.Inv()
    modifies it
    ensures |items| == |it.keys|
    ensures forall i | 0 <= i < |items| ::
      items[i] == (it.keys[|it.keys| - 1 - i], it.values[|it.keys| - 1 - i])
    ensures forall i, j | 0 <= i < j < |items| :: LexLt(items[j].0, items[i].0)
  {
    var valid := it.Seek(End);
    items := [];
    while valid
      invariant it.Inv() && valid == it.Valid()
      invariant !valid ==> it.pos == -1
      invariant |items| == |it.keys| - 1 - it.pos
      invariant forall i | 0 <= i < |items| ::
        items[i] == (it.keys[|it.keys| - 1 - i], it.values[|it.keys| - 1 - i])
      decreases it.pos
    {
      items := items + [(it.Key(), it.Value())];
      valid := it.Prev();
    }
  }
}
