/**
 Big numbers as byte strings (src/bignum.h getvch, setvch): the magnitude, least significant byte
 first, with the sign in the top bit of the last byte.
 */
module Numbers {

  type byte = b: nat | b < 256

  /** The bytes of a natural number, least significant first, none for 0. */
  function Magnitude(n: nat): (m: seq<byte>)
    ensures m == [] <==> n == 0
    ensures n > 0 ==> m[|m|-1] > 0
  {
    if n == 0 then [] else [n % 256] + Magnitude(n / 256)
  }

  function FromMagnitude(m: seq<byte>): nat {
    if m == [] then 0 else m[0] + 256 * FromMagnitude(m[1..])
  }

  function Abs(n: int): nat { if n < 0 then -n else n }

  function Getvch(n: int): (v: seq<byte>)
    ensures v == [] <==> n == 0
  {
    var m := Magnitude(Abs(n));
    if n == 0 then []
    else if m[|m|-1] >= 0x80 then m + [if n < 0 then 0x80 else 0]
    else if n < 0 then m[..|m|-1] + [m[|m|-1] + 0x80]
    else m
  }

  function Setvch(v: seq<byte>): int {
    if v == [] then 0
    else
      var top := v[|v|-1];
      var m: int := FromMagnitude(v[..|v|-1] + [top % 0x80]);
      if top >= 0x80 then -m else m
  }

  lemma {:induction false} MagnitudeRoundTrip(n: nat)
    ensures FromMagnitude(Magnitude(n)) == n
  {
    if n > 0 {
      MagnitudeRoundTrip(n / 256);
      assert Magnitude(n)[1..] == Magnitude(n / 256);
    }
  }

  lemma {:induction false} LeadingZero(m: seq<byte>)
    ensures FromMagnitude(m + [0]) == FromMagnitude(m)
  {
    if m == [] {
      assert m + [0] == [0];
      assert FromMagnitude([0]) == 0 + 256 * FromMagnitude([]);
    } else {
      assert (m + [0])[1..] == m[1..] + [0];
      LeadingZero(m[1..]);
    }
  }

  /** Writing a number and reading it back gives the number, negative ones included. */
  lemma VchRoundTrip(n: int)
    ensures Setvch(Getvch(n)) == n
  {
    hide Magnitude, FromMagnitude;
    var m, v := Magnitude(Abs(n)), Getvch(n);
    MagnitudeRoundTrip(Abs(n));
    if n != 0 {
      var last := m[|m|-1];
      if last >= 0x80 {
        LeadingZero(m);
        assert v[..|v|-1] == m;
        assert v[..|v|-1] + [v[|v|-1] % 0x80] == m + [0];
      } else {
        assert m == m[..|m|-1] + [last];
        assert v[..|v|-1] == m[..|m|-1];
        assert v[..|v|-1] + [v[|v|-1] % 0x80] == m;
      }
    }
  }

  function Pow256(k: nat): nat { if k == 0 then 1 else 256 * Pow256(k - 1) }

  lemma {:induction false} MagnitudeSize(n: nat, k: nat)
    requires n < Pow256(k)
    ensures |Magnitude(n)| <= k
    decreases k
  {
    if n > 0 { MagnitudeSize(n / 256, k - 1); }
  }

  /** Numbers below 2^(8k) take at most k + 1 bytes. */
  lemma VchSize(n: int, k: nat)
    requires Abs(n) < Pow256(k)
    ensures |Getvch(n)| <= k + 1
  {
    MagnitudeSize(Abs(n), k);
  }

  lemma {:induction false} FromMagnitudeBound(m: seq<byte>)
    ensures FromMagnitude(m) < Pow256(|m|)
  {
    if m != [] { FromMagnitudeBound(m[1..]); }
  }

  lemma SetvchBound(v: seq<byte>)
    ensures Abs(Setvch(v)) < Pow256(|v|)
  {
    if v == [] {
    } else {
      var top := v[|v|-1];
      FromMagnitudeBound(v[..|v|-1] + [top % 0x80]);
    }
  }

  /** Reading and writing back drops redundant bytes and never lengthens. */
  lemma Normalised(v: seq<byte>)
    ensures Setvch(Getvch(Setvch(v))) == Setvch(v) && |Getvch(Setvch(v))| <= |v| + 1
  {
    VchRoundTrip(Setvch(v));
    SetvchBound(v);
    VchSize(Setvch(v), |v|);
  }

  const nMaxNumSize := 4

  datatype Number = NotANumber | Int(value: int)

  /** CastToBigNum (src/script.cpp): stack elements of more than four bytes are not numbers. */
  function CastToBigNum(v: seq<byte>): (r: Number)
    ensures r.Int? ==> Abs(r.value) < Pow256(nMaxNumSize)
  {
    if |v| > nMaxNumSize then NotANumber
    else
      SetvchBound(v);
      Pow256Grows(|v|, nMaxNumSize);
      Int(Setvch(v))
  }

  lemma {:induction false} Pow256Grows(j: nat, k: nat)
    requires j <= k
    ensures 1 <= Pow256(j) <= Pow256(k)
  {
    if j > 0 { Pow256Grows(j - 1, k - 1); } else if k > 0 { Pow256Grows(0, k - 1); }
  }

  lemma OneDigitMore(low: nat, top: nat, p: nat, f: nat)
    requires low < 256 && top * p <= f < (top + 1) * p
    ensures top * (256 * p) <= low + 256 * f < (top + 1) * (256 * p)
  {
    assert top * (256 * p) == 256 * (top * p) && (top + 1) * (256 * p) == 256 * ((top + 1) * p);
  }

  /** The top digit bounds the number on both sides. */
  lemma {:induction false} TopDigit(m: seq<byte>)
    requires m != []
    ensures var top: nat := m[|m|-1]; top * Pow256(|m| - 1) <= FromMagnitude(m) < (top + 1) * Pow256(|m| - 1)
    decreases |m|
  {
    if |m| > 1 {
      TopDigit(m[1..]);
      OneDigitMore(m[0], m[|m|-1], Pow256(|m| - 2), FromMagnitude(m[1..]));
    }
  }

  /** The numbers below 2^31 are the ones that come back as script numbers. */
  lemma NumberBack(n: int)
    ensures CastToBigNum(Getvch(n)) == if Abs(n) < 0x8000_0000 then Int(n) else NotANumber
  {
    VchRoundTrip(n);
    if n != 0 { ShortMagnitude(Magnitude(Abs(n)), Abs(n)); }
  }

  lemma PowValues()
    ensures Pow256(3) == 0x100_0000 && Pow256(4) == 0x1_0000_0000
  {
    assert Pow256(1) == 256 && Pow256(2) == 65536;
  }

  lemma {:induction false} AtLeast(m: seq<byte>)
    requires m != [] && m[|m|-1] > 0
    ensures FromMagnitude(m) >= Pow256(|m| - 1)
    decreases |m|
  {
    if |m| > 1 { AtLeast(m[1..]); }
  }

  lemma ShortMagnitude(m: seq<byte>, n: nat)
    requires n > 0 && m == Magnitude(n)
    ensures n < 0x8000_0000 <==> |m| < 4 || (|m| == 4 && m[3] < 0x80)
  {
    hide FromMagnitude, Pow256;
    PowValues();
    MagnitudeRoundTrip(n);
    if |m| < 4 {
      Pow256Grows(|m|, 3);
      FromMagnitudeBound(m);
    } else if |m| > 4 {
      Pow256Grows(4, |m| - 1);
      AtLeast(m);
    } else {
      TopDigit(m);
    }
  }

  /** Small numbers are one byte, the sign its top bit. */
  lemma OneByte(n: nat)
    requires 1 <= n < 128
    ensures var minus: byte := n + 0x80; Getvch(n) == [n as byte] && Getvch(0 - n) == [minus]
  {
    assert Magnitude(n / 256) == [];
    assert Magnitude(n) == [n];
  }
}
