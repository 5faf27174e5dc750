/** Byte strings as the binding hands them to the engine, and the bytewise
    lexicographic order that Rust's slice and `String` comparisons, the key
    order of a `BTreeMap<String, _>` and the engine's default comparator all
    share. */
module ByteStrings {

  newtype u8 = x: int | 0 <= x < 0x100

  type Bytes = seq<u8>

  /** The ASCII bytes of a literal whose characters are all below 128. */
  function Ascii(s: string): (b: Bytes)
    requires forall i | 0 <= i < |s| :: s[i] as int < 0x80
    ensures |b| == |s|
    ensures forall i | 0 <= i < |s| :: b[i] as int == s[i] as int
  {
    seq(|s|, i requires 0 <= i < |s| => s[i] as int as u8)
  }

  /** A byte string that `CString::new` refuses: it holds a zero byte. */
  predicate HasNul(s: Bytes)
  {
    0 in s
  }

  /** The bytes `CStr::from_ptr` reads from a buffer: those before the
      first zero byte, which ends a C string. */
  function CStrPrefix(s: Bytes): (r: Bytes)
    ensures |r| <= |s| && r == s[..|r|]
    ensures !HasNul(r)
    ensures |r| < |s| ==> s[|r|] == 0
    ensures !HasNul(s) ==> r == s
    decreases |s|
  {
    if s == [] || s[0] == 0 then []
    else [s[0]] + CStrPrefix(s[1..])
  }

  /** `a < b` in bytewise lexicographic order: the first differing byte
      decides, and a proper prefix is smaller than the longer string. */
  predicate LexLt(a: Bytes, b: Bytes)
    decreases |a|
  {
    if |a| == 0 then |b| > 0
    else if |b| == 0 then false
    else if a[0] != b[0] then a[0] < b[0]
    else LexLt(a[1..], b[1..])
  }

  predicate LexLe(a: Bytes, b: Bytes)
  {
    a == b || LexLt(a, b)
  }

  /** The same order stated without recursion. */
  ghost predicate LexLtByFirstDifference(a: Bytes, b: Bytes)
  {
    (|a| < |b| && a == b[..|a|]) ||
    exists i | 0 <= i < |a| && i < |b| :: a[..i] == b[..i] && a[i] < b[i]
  }

  lemma {:induction false} LexLtMeansFirstDifference(a: Bytes, b: Bytes)
    ensures LexLt(a, b) <==> LexLtByFirstDifference(a, b)
    decreases |a|
  {
    if |a| == 0 || |b| == 0 {
    } else if a[0] != b[0] {
      if a[0] < b[0] {
        assert a[..0] == b[..0];
      }
      assert |a| < |b| ==> b[..|a|][0] == b[0];
      forall i | 0 < i < |a| && i < |b|
        ensures a[..i] != b[..i]
      {
        assert a[..i][0] == a[0] && b[..i][0] == b[0];
      }
    } else {
      var a', b' := a[1..], b[1..];
      LexLtMeansFirstDifference(a', b');
      if LexLtByFirstDifference(a', b') {
        if |a'| < |b'| && a' == b'[..|a'|] {
          assert a == [a[0]] + a' && b[..|a|] == [b[0]] + b'[..|a'|];
        } else {
          var i :| 0 <= i < |a'| && i < |b'| && a'[..i] == b'[..i] && a'[i] < b'[i];
          assert a[..i + 1] == [a[0]] + a'[..i] && b[..i + 1] == [b[0]] + b'[..i];
          assert a[i + 1] == a'[i] && b[i + 1] == b'[i];
        }
      }
      if LexLtByFirstDifference(a, b) {
        if |a| < |b| && a == b[..|a|] {
          assert a' == b'[..|a'|];
        } else {
          var i :| 0 <= i < |a| && i < |b| && a[..i] == b[..i] && a[i] < b[i];
          assert i != 0;
          assert a'[..i - 1] == a[..i][1..] && b'[..i - 1] == b[..i][1..];
          assert a'[i - 1] == a[i] && b'[i - 1] == b[i];
        }
      }
    }
  }

  lemma {:induction false} LexLtIrreflexive(a: Bytes)
    ensures !LexLt(a, a)
    decreases |a|
  {
    if |a| > 0 {
      LexLtIrreflexive(a[1..]);
    }
  }

  lemma {:induction false} LexLtTransitive(a: Bytes, b: Bytes, c: Bytes)
    requires LexLt(a, b) && LexLt(b, c)
    ensures LexLt(a, c)
    decreases |a|
  {
    if |a| > 0 && a[0] == b[0] && b[0] == c[0] {
      LexLtTransitive(a[1..], b[1..], c[1..]);
    }
  }

  lemma {:induction false} LexLtTotal(a: Bytes, b: Bytes)
    requires a != b
    ensures LexLt(a, b) || LexLt(b, a)
    decreases |a|
  {
    if |a| > 0 && |b| > 0 && a[0] == b[0] {
      assert a == [a[0]] + a[1..] && b == [b[0]] + b[1..];
      LexLtTotal(a[1..], b[1..]);
    }
  }

  /** The order is total: what is not below `b` is at or above it. */
  lemma NotBelow(a: Bytes, b: Bytes)
    requires !LexLt(a, b)
    ensures LexLe(b, a)
  {
    if a != b {
      LexLtTotal(a, b);
    }
  }

  lemma LexLtAsymmetric(a: Bytes, b: Bytes)
    requires LexLt(a, b)
    ensures !LexLt(b, a)
  {
    if LexLt(b, a) {
      LexLtTransitive(a, b, a);
      LexLtIrreflexive(a);
    }
  }

  /** Every element strictly below every later one: sorted, no repeats. */
  predicate StrictlySorted(s: seq<Bytes>)
  {
    forall i, j | 0 <= i < j < |s| :: LexLt(s[i], s[j])
  }

  predicate IsLeast(m: Bytes, s: set<Bytes>)
  {
    m in s && forall x | x in s :: LexLe(m, x)
  }

  lemma {:induction false} LeastExists(s: set<Bytes>)
    requires s != {}
    ensures exists m :: IsLeast(m, s)
    decreases |s|
  {
    var y :| y in s;
    if s == {y} {
      assert IsLeast(y, s);
    } else {
      LeastExists(s - {y});
      var m :| IsLeast(m, s - {y});
      if LexLt(y, m) {
        forall x | x in s
          ensures LexLe(y, x)
        {
          if x != y && x != m {
            assert x in s - {y};
            LexLtTransitive(y, m, x);
          }
        }
        assert IsLeast(y, s);
      } else {
        LexLtTotal(y, m);
        assert IsLeast(m, s);
      }
    }
  }

  /** Two strictly sorted sequences with the same elements are equal: a set
      has exactly one ascending enumeration. */
  lemma {:induction false} SortedUnique(a: seq<Bytes>, b: seq<Bytes>)
    requires StrictlySorted(a) && StrictlySorted(b) && |a| == |b|
    requires forall x :: x in a <==> x in b
    ensures a == b
    decreases |a|
  {
    if a != [] {
      if a[0] != b[0] {
        assert a[0] in b && b[0] in a;
        var j :| 0 <= j < |b| && b[j] == a[0];
        var i :| 0 <= i < |a| && a[i] == b[0];
        assert i > 0 && j > 0;
        LexLtTransitive(a[0], a[i], a[0]);
        LexLtIrreflexive(a[0]);
      }
      forall x
        ensures x in a[1..] <==> x in b[1..]
      {
        if x in a[1..] {
          var i :| 1 <= i < |a| && a[i] == x;
          LexLtIrreflexive(x);
          assert x in b && x != b[0];
        }
        if x in b[1..] {
          var j :| 1 <= j < |b| && b[j] == x;
          LexLtIrreflexive(x);
          assert x in a && x != a[0];
        }
      }
      SortedUnique(a[1..], b[1..]);
      assert a == [a[0]] + a[1..] && b == [b[0]] + b[1..];
    }
  }

  /** The ascending enumeration of a finite set of byte strings: the order in
      which a `BTreeMap` visits its keys. */
  ghost function SortedKeys(s: set<Bytes>): (r: seq<Bytes>)
    ensures |r| == |s| && StrictlySorted(r)
    ensures forall x :: x in r <==> x in s
    decreases s
  {
    if s == {} then []
    else
      LeastExists(s);
      var m :| IsLeast(m, s);
      var rest := SortedKeys(s - {m});
      assert forall j | 0 <= j < |rest| :: LexLt(m, rest[j]) by {
        forall j | 0 <= j < |rest| ensures LexLt(m, rest[j]) {
          assert rest[j] in s - {m};
        }
      }
      [m] + rest
  }

  /** A key below every element of a sorted list can be put in front of it. */
  lemma ConsSorted(m: Bytes, rest: seq<Bytes>)
    requires StrictlySorted(rest)
    requires forall j | 0 <= j < |rest| :: LexLt(m, rest[j])
    ensures StrictlySorted([m] + rest)
  {
    var t := [m] + rest;
    forall i, j | 0 <= i < j < |t| ensures LexLt(t[i], t[j]) {
      if i == 0 {
        assert t[j] == rest[j - 1];
      } else {
        assert t[i] == rest[i - 1] && t[j] == rest[j - 1];
      }
    }
  }

  /** Taking the least key off first is consistent with the enumeration. */
  lemma SortedKeysUnfold(s: set<Bytes>, m: Bytes)
    requires IsLeast(m, s)
    ensures SortedKeys(s) == [m] + SortedKeys(s - {m})
  {
    var rest := SortedKeys(s - {m});
    forall j | 0 <= j < |rest| ensures LexLt(m, rest[j]) {
      assert rest[j] in s - {m};
    }
    ConsSorted(m, rest);
    var t := [m] + rest;
    assert forall x :: x in t <==> x == m || x in rest;
    SortedUnique(SortedKeys(s), t);
  }
}
