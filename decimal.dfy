/** Decimal text of unsigned 64-bit integers: the parse that
    `str::parse::<u64>` performs and the rendering it inverts. */
module Decimal {
  import opened ByteStrings
  import opened Wrappers

  const U64_MAX: nat := 0xFFFF_FFFF_FFFF_FFFF

  /** ASCII '+', which `u64::from_str` accepts in front of the digits. */
  const PLUS: u8 := 0x2B

  predicate IsDigit(c: u8)
  {
    0x30 <= c <= 0x39
  }

  predicate AllDigits(s: Bytes)
  {
    forall i | 0 <= i < |s| :: IsDigit(s[i])
  }

  /** The value of `acc` followed by the digits `ds`, most significant first. */
  function Horner(acc: nat, ds: Bytes): nat
    requires AllDigits(ds)
    decreases |ds|
  {
    if ds == [] then acc else Horner(acc * 10 + (ds[0] - 0x30) as nat, ds[1..])
  }

  function DigitsValue(ds: Bytes): nat
    requires AllDigits(ds)
  {
    Horner(0, ds)
  }

  /** The digits part of a text: the text without its leading '+', if any. */
  function Unsigned(s: Bytes): Bytes
  {
    if |s| > 0 && s[0] == PLUS then s[1..] else s
  }

  /** A text `u64::from_str` accepts: an optional '+', then one or more ASCII
      digits whose value fits in 64 bits (leading zeros allowed). */
  predicate IsU64Text(s: Bytes)
  {
    var ds := Unsigned(s);
    |ds| > 0 && AllDigits(ds) && DigitsValue(ds) <= U64_MAX
  }

  /** The digit loop of `u64::from_str`: multiply by ten and add the digit,
      each step checked; a non-digit or an overflow ends it with `None`. */
  function Accumulate(acc: nat, ds: Bytes): Option<nat>
    decreases |ds|
  {
    if ds == [] then Some(acc)
    else if !IsDigit(ds[0]) then None
    else if acc * 10 > U64_MAX then None
    else if acc * 10 + (ds[0] - 0x30) as nat > U64_MAX then None
    else Accumulate(acc * 10 + (ds[0] - 0x30) as nat, ds[1..])
  }

  lemma {:induction false} HornerAtLeast(acc: nat, ds: Bytes)
    requires AllDigits(ds)
    ensures Horner(acc, ds) >= acc
    decreases |ds|
  {
    if ds != [] {
      HornerAtLeast(acc * 10 + (ds[0] - 0x30) as nat, ds[1..]);
    }
  }

  /** The checked loop overflows exactly when the full value does not fit. */
  lemma {:induction false} AccumulateFits(acc: nat, ds: Bytes)
    requires acc <= U64_MAX
    ensures Accumulate(acc, ds) ==
      if AllDigits(ds) && Horner(acc, ds) <= U64_MAX then Some(Horner(acc, ds)) else None
    decreases |ds|
  {
    if ds != [] && IsDigit(ds[0]) {
      var next := acc * 10 + (ds[0] - 0x30) as nat;
      assert AllDigits(ds) <==> AllDigits(ds[1..]) by {
        forall i | 0 <= i < |ds[1..]| ensures ds[1..][i] == ds[i + 1] { }
      }
      if AllDigits(ds) {
        HornerAtLeast(next, ds[1..]);
      }
      if next <= U64_MAX {
        AccumulateFits(next, ds[1..]);
      }
    }
  }

  /** `str::parse::<u64>` on the property text. */
  function ParseU64(s: Bytes): (r: Option<nat>)
    ensures r.Some? <==> IsU64Text(s)
    ensures r.Some? ==> r.value == DigitsValue(Unsigned(s)) && r.value <= U64_MAX
  {
    if |s| == 0 then None
    else
      var digits := if s[0] == PLUS then s[1..] else s;
      if |digits| == 0 then None
      else
        AccumulateFits(0, digits);
        Accumulate(0, digits)
  }

  /** The decimal rendering of `n` without sign or leading zeros, as the
      engine writes integer properties. */
  function Render(n: nat): (s: Bytes)
    ensures |s| > 0 && AllDigits(s)
    decreases n
  {
    if n < 10 then [(n + 0x30) as u8] else Render(n / 10) + [(n % 10 + 0x30) as u8]
  }

  lemma {:induction false} HornerSnoc(acc: nat, ds: Bytes, d: u8)
    requires AllDigits(ds) && IsDigit(d)
    ensures AllDigits(ds + [d])
    ensures Horner(acc, ds + [d]) == Horner(acc, ds) * 10 + (d - 0x30) as nat
    decreases |ds|
  {
    if ds == [] {
      assert ds + [d] == [d];
    } else {
      assert (ds + [d])[1..] == ds[1..] + [d];
      HornerSnoc(acc * 10 + (ds[0] - 0x30) as nat, ds[1..], d);
    }
  }

  lemma {:induction false} RenderValue(n: nat)
    ensures DigitsValue(Render(n)) == n
    decreases n
  {
    if n < 10 {
      assert Render(n) == [(n + 0x30) as u8];
      assert Horner(0, Render(n)) == Horner(n, []);
    } else {
      RenderValue(n / 10);
      HornerSnoc(0, Render(n / 10), (n % 10 + 0x30) as u8);
      assert (n / 10) * 10 + n % 10 == n;
    }
  }

  /** Parsing inverts rendering on every 64-bit value. */
  lemma ParseRender(n: nat)
    requires n <= U64_MAX
    ensures ParseU64(Render(n)) == Some(n)
  {
    var s := Render(n);
    assert IsDigit(s[0]) && Unsigned(s) == s;
    RenderValue(n);
  }
}
