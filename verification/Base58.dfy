/**
 Base 58 text for byte strings (src/base58.h): a big number in base 58, with one '1' for every leading
 zero byte, and the variant that carries a four-byte checksum.
 */
module Base58 {
  import opened Numbers

  type Bytes = seq<byte>

  type digit = d: nat | d < 58

  /** pszBase58: '1'-'9', 'A'-'H', 'J'-'N', 'P'-'Z', 'a'-'k', 'm'-'z'. */
  function CharOf(d: digit): byte {
    if d < 9 then 49 + d else if d < 17 then 65 + (d - 9) else if d < 22 then 74 + (d - 17)
    else if d < 33 then 80 + (d - 22) else if d < 44 then 97 + (d - 33) else 109 + (d - 44)
  }

  datatype MaybeDigit = NoDigit | Digit(d: digit)

  /** strchr: the place of a character in the alphabet. */
  function DigitOf(c: byte): MaybeDigit {
    if 49 <= c <= 57 then Digit(c - 49) else if 65 <= c <= 72 then Digit(c - 65 + 9) else if 74 <= c <= 78 then Digit(c - 74 + 17)
    else if 80 <= c <= 90 then Digit(c - 80 + 22) else if 97 <= c <= 107 then Digit(c - 97 + 33)
    else if 109 <= c <= 122 then Digit(c - 109 + 44) else NoDigit
  }

  predicate IsSpace(c: byte) { c == 32 || 9 <= c <= 13 }

  lemma AlphabetRoundTrip(d: digit, c: byte)
    ensures DigitOf(CharOf(d)) == Digit(d) && !IsSpace(CharOf(d))
    ensures DigitOf(c).Digit? ==> CharOf(DigitOf(c).d) == c
  {
  }

  // ----- digits ---------------------------------------------------------------------------------------------

  function Rev<T>(s: seq<T>): (r: seq<T>)
    ensures |r| == |s| && forall i :: 0 <= i < |s| ==> r[i] == s[|s| - 1 - i]
  {
    seq(|s|, i requires 0 <= i < |s| => s[|s| - 1 - i])
  }

  lemma RevRev<T>(s: seq<T>, t: seq<T>)
    ensures Rev(Rev(s)) == s && Rev(s + t) == Rev(t) + Rev(s)
  {
  }

  /** Base-58 digits, least significant first. */
  function Digits(n: nat): (ds: seq<digit>)
    ensures ds == [] <==> n == 0
    ensures ds != [] ==> ds[|ds|-1] != 0
  {
    if n == 0 then [] else [n % 58] + Digits(n / 58)
  }

  function FromDigits(ds: seq<digit>): nat {
    if ds == [] then 0 else ds[0] + 58 * FromDigits(ds[1..])
  }

  lemma {:induction false} DigitsRoundTrip(n: nat)
    ensures FromDigits(Digits(n)) == n
  {
    if n > 0 {
      DigitsRoundTrip(n / 58);
      assert Digits(n)[1..] == Digits(n / 58);
    }
  }

  /** Without a leading zero the digits are those of the number. */
  lemma {:induction false} DigitsUnique(ds: seq<digit>)
    requires ds == [] || ds[|ds|-1] != 0
    ensures Digits(FromDigits(ds)) == ds
  {
    if ds != [] {
      DigitsUnique(ds[1..]);
      var rest := FromDigits(ds[1..]);
      assert (ds[0] + 58 * rest) % 58 == ds[0] && (ds[0] + 58 * rest) / 58 == rest;
      if rest == 0 { assert ds[1..] == []; }
    }
  }

  lemma {:induction false} MagnitudeUnique(m: seq<byte>)
    requires m == [] || m[|m|-1] != 0
    ensures Magnitude(FromMagnitude(m)) == m
  {
    if m != [] {
      MagnitudeUnique(m[1..]);
      var rest := FromMagnitude(m[1..]);
      assert (m[0] + 256 * rest) % 256 == m[0] && (m[0] + 256 * rest) / 256 == rest;
      if rest == 0 { assert m[1..] == []; }
    }
  }

  function Repeat<T>(x: T, k: nat): (r: seq<T>)
    ensures |r| == k && forall i :: 0 <= i < k ==> r[i] == x
  {
    seq(k, i => x)
  }

  lemma {:induction false} ZeroDigits(ds: seq<digit>, k: nat)
    ensures FromDigits(ds + Repeat<digit>(0, k)) == FromDigits(ds)
  {
    if ds != [] {
      ZeroDigits(ds[1..], k);
      assert (ds + Repeat<digit>(0, k))[1..] == ds[1..] + Repeat<digit>(0, k);
    } else {
      assert ds + Repeat<digit>(0, k) == Repeat<digit>(0, k);
      OnlyZeros(k);
    }
  }

  lemma {:induction false} OnlyZeros(k: nat)
    ensures FromDigits(Repeat<digit>(0, k)) == 0
  {
    if k > 0 {
      OnlyZeros(k - 1);
      assert Repeat<digit>(0, k)[1..] == Repeat<digit>(0, k - 1);
    }
  }

  lemma {:induction false} ZeroBytes(m: seq<byte>, k: nat)
    ensures FromMagnitude(m + Repeat(0, k)) == FromMagnitude(m)
    decreases k
  {
    if k > 0 {
      assert m + Repeat<byte>(0, k) == (m + Repeat<byte>(0, k - 1)) + [0];
      LeadingZero(m + Repeat<byte>(0, k - 1));
      ZeroBytes(m, k - 1);
    } else {
      assert m + Repeat<byte>(0, k) == m;
    }
  }

  // ----- the two directions -----------------------------------------------------------------------------------

  /** How many elements at the front equal `x`. */
  function Leading(x: byte, s: Bytes): (k: nat)
    ensures k <= |s| && s[..k] == Repeat(x, k) && (k < |s| ==> s[k] != x)
  {
    if s == [] || s[0] != x then 0
    else
      var k := Leading(x, s[1..]);
      assert s[..k + 1] == [x] + s[1..][..k];
      k + 1
  }

  lemma LeadingIs(x: byte, k: nat, t: Bytes)
    requires t == [] || t[0] != x
    ensures Leading(x, Repeat(x, k) + t) == k
  {
    var s := Repeat(x, k) + t;
    var j := Leading(x, s);
    assert forall i :: 0 <= i < j ==> s[i] == s[..j][i] == x;
    assert forall i :: 0 <= i < k ==> s[i] == x;
    assert k < |s| ==> s[k] == t[0];
  }

  /** The number a big-endian byte string stands for. */
  function BigEndian(b: Bytes): nat { FromMagnitude(Rev(b)) }

  function Chars(ds: seq<digit>): (s: Bytes)
    ensures |s| == |ds| && forall i :: 0 <= i < |ds| ==> s[i] == CharOf(ds[i])
  {
    seq<byte>(|ds|, i requires 0 <= i < |ds| => CharOf(ds[i]))
  }

  function Encoded(b: Bytes): Bytes { Repeat(CharOf(0), Leading(0, b)) + Rev(Chars(Digits(BigEndian(b)))) }

  predicate InAlphabet(s: Bytes) { forall i :: 0 <= i < |s| ==> DigitOf(s[i]).Digit? }

  function DigitsOf(s: Bytes): (ds: seq<digit>)
    requires InAlphabet(s)
    ensures |ds| == |s| && forall i :: 0 <= i < |s| ==> ds[i] == DigitOf(s[i]).d
  {
    seq<digit>(|s|, i requires 0 <= i < |s| => DigitOf(s[i]).d)
  }

  /** The number a string over the alphabet stands for. */
  function NumberOf(s: Bytes): nat
    requires InAlphabet(s)
  {
    FromDigits(Rev(DigitsOf(s)))
  }

  function Decoded(s: Bytes): Bytes
    requires InAlphabet(s)
  {
    Repeat(0, Leading(CharOf(0), s)) + Rev(Magnitude(NumberOf(s)))
  }

  /** Every byte string comes back, leading zeros included. */
  lemma DecodeEncoded(b: Bytes)
    ensures InAlphabet(Encoded(b)) && Decoded(Encoded(b)) == b
  {
    hide Magnitude, FromMagnitude, Digits, FromDigits, Leading, Rev, Chars, DigitsOf, CharOf, DigitOf;
    var z := Leading(0, b);
    var b' := b[z..];
    var n := BigEndian(b);
    var ds := Digits(n);
    var s := Encoded(b);
    var ones := Repeat(CharOf(0), z);
    EncodedDigits(z, ds);
    assert b == Repeat(0, z) + b';
    RevRev(Repeat<byte>(0, z), b');
    RevRepeat<byte>(0, z);
    ZeroBytes(Rev(b'), z);
    MagnitudeUnique(Rev(b'));
    RevRev(b', []);
    RevRev(DigitsOf(s), []);
    RevRev(Repeat<digit>(0, z), Rev(ds));
    RevRepeat<digit>(0, z);
    RevRev(ds, []);
    ZeroDigits(ds, z);
    DigitsRoundTrip(n);
  }

  lemma RevRepeat<T>(x: T, k: nat)
    ensures Rev(Repeat(x, k)) == Repeat(x, k)
  {
  }

  /** The digits of an encoded number, and how many '1' stand before it. */
  lemma EncodedDigits(z: nat, ds: seq<digit>)
    requires ds == [] || ds[|ds|-1] != 0
    ensures var s := Repeat(CharOf(0), z) + Rev(Chars(ds));
      && InAlphabet(s) && DigitsOf(s) == Repeat(0, z) + Rev(ds) && Leading(CharOf(0), s) == z
  {
    hide Leading, CharOf, DigitOf;
    var t := Rev(Chars(ds));
    var s := Repeat(CharOf(0), z) + t;
    forall i | 0 <= i < |s| ensures DigitOf(s[i]) == Digit((Repeat<digit>(0, z) + Rev(ds))[i]) {
      AlphabetRoundTrip(if i < z then 0 else Rev(ds)[i - z], 0);
    }
    if ds != [] {
      AlphabetRoundTrip(0, 0);
      AlphabetRoundTrip(ds[|ds|-1], 0);
      assert t[0] == CharOf(ds[|ds|-1]);
    }
    LeadingIs(CharOf(0), z, t);
  }

  /** Every string over the alphabet comes back. */
  lemma EncodeDecoded(s: Bytes)
    requires InAlphabet(s)
    ensures Encoded(Decoded(s)) == s
  {
    hide Magnitude, FromMagnitude, Digits, FromDigits, Leading, Rev, Chars, DigitsOf, CharOf, DigitOf;
    var z := Leading(CharOf(0), s);
    var s' := s[z..];
    var m := Magnitude(NumberOf(s));
    var b := Decoded(s);
    assert s == Repeat(CharOf(0), z) + s';
    assert Rev(m) == [] || Rev(m)[0] == m[|m| - 1];
    LeadingIs(0, z, Rev(m));
    RevRev(Repeat<byte>(0, z), Rev(m));
    RevRepeat<byte>(0, z);
    RevRev(m, []);
    ZeroBytes(m, z);
    MagnitudeRoundTrip(NumberOf(s));
    SplitDigits(s, z);
    RevRev(Repeat<digit>(0, z), DigitsOf(s'));
    RevRepeat<digit>(0, z);
    ZeroDigits(Rev(DigitsOf(s')), z);
    DigitsUnique(Rev(DigitsOf(s')));
    RevRev(s', []);
    CharsBack(s');
  }

  lemma SplitDigits(s: Bytes, z: nat)
    requires InAlphabet(s) && z == Leading(CharOf(0), s)
    ensures InAlphabet(s[z..]) && DigitsOf(s) == Repeat(0, z) + DigitsOf(s[z..])
    ensures var r := Rev(DigitsOf(s[z..])); r == [] || r[|r| - 1] != 0
  {
    hide Leading, CharOf, DigitOf;
    AlphabetRoundTrip(0, 0);
    forall i | 0 <= i < |s| ensures DigitsOf(s)[i] == (Repeat<digit>(0, z) + DigitsOf(s[z..]))[i] {
      if i < z { assert s[..z][i] == CharOf(0); }
    }
    if z < |s| { AlphabetRoundTrip(0, s[z]); }
  }

  lemma CharsBack(s: Bytes)
    requires InAlphabet(s)
    ensures Rev(Chars(Rev(DigitsOf(s)))) == s
  {
    hide CharOf, DigitOf;
    forall i | 0 <= i < |s| ensures Rev(Chars(Rev(DigitsOf(s))))[i] == s[i] {
      AlphabetRoundTrip(0, s[i]);
    }
  }

  // ----- the loops ----------------------------------------------------------------------------------------------

  method EncodeBase58(b: Bytes) returns (str: Bytes)
    ensures str == Encoded(b)
  {
    hide Magnitude, FromMagnitude, Leading, CharOf, Digits, Chars, Rev, Repeat, BigEndian;
    var vchTmp := Rev(b) + [0];
    var bn := PositiveNumber(vchTmp, b);
    ghost var n := bn;
    str := [];
    while bn > 0
      invariant bn >= 0 && Chars(Digits(n)) == str + Chars(Digits(bn))
    {
      NextChar(bn);
      var c: digit := bn % 58;
      bn := bn / 58;
      str := str + [CharOf(c)];
    }
    NoOnes(str);
    ghost var digits := str;
    ghost var p;
    str, p := AppendOnes(b, str);
    RevRev(digits, Repeat(CharOf(0), p));
    RevRepeat(CharOf(0), p);
    str := Rev(str);
  }

  /** A '1' for every leading zero byte. */
  method AppendOnes(b: Bytes, str0: Bytes) returns (str: Bytes, ghost zeros: nat)
    ensures zeros == Leading(0, b) && str == str0 + Repeat(CharOf(0), zeros)
  {
    hide Leading, CharOf, Repeat;
    str := str0;
    NoOnes(str);
    var p := 0;
    while p < |b| && b[p] == 0
      invariant 0 <= p <= |b| && (forall i :: 0 <= i < p ==> b[i] == 0) && str == str0 + Repeat(CharOf(0), p)
    {
      OneMoreOne(str0, p);
      str := str + [CharOf(0)];
      p := p + 1;
    }
    LeadingCount(0, b, p);
    zeros := p;
  }

  lemma DigitsStep(n: nat)
    requires n > 0
    ensures Digits(n) == [n % 58] + Digits(n / 58)
  {
  }

  lemma CharsStep(d: digit, ds: seq<digit>)
    ensures Chars([d] + ds) == [CharOf(d)] + Chars(ds)
  {
    hide CharOf;
  }

  lemma NextChar(n: nat)
    requires n > 0
    ensures Chars(Digits(n)) == [CharOf(n % 58)] + Chars(Digits(n / 58)) && n / 58 < n
  {
    hide CharOf, Digits, Chars;
    DigitsStep(n);
    CharsStep(n % 58, Digits(n / 58));
  }

  lemma NoOnes(s: Bytes)
    ensures s + Repeat(CharOf(0), 0) == s && Chars(Digits(0)) == []
  {
  }

  lemma OneMoreOne(s: Bytes, p: nat)
    ensures s + Repeat(CharOf(0), p) + [CharOf(0)] == s + Repeat(CharOf(0), p + 1)
  {
  }

  /** The extra zero byte keeps the number positive. */
  method PositiveNumber(vchTmp: Bytes, ghost b: Bytes) returns (bn: int)
    requires vchTmp == Rev(b) + [0]
    ensures bn == BigEndian(b)
  {
    hide FromMagnitude;
    bn := Setvch(vchTmp);
    assert vchTmp[..|vchTmp| - 1] == Rev(b);
    LeadingZero(Rev(b));
  }

  lemma LeadingCount(x: byte, s: Bytes, p: nat)
    requires p <= |s| && (forall i :: 0 <= i < p ==> s[i] == x) && (p < |s| ==> s[p] != x)
    ensures Leading(x, s) == p
  {
    assert s == Repeat(x, p) + s[p..];
    LeadingIs(x, p, s[p..]);
  }

  function SkipSpaces(s: Bytes): (r: Bytes)
    ensures |r| <= |s|
  {
    if s != [] && IsSpace(s[0]) then SkipSpaces(s[1..]) else s
  }

  /** The length of the longest prefix over the alphabet. */
  function BodyLength(s: Bytes): (k: nat)
    ensures k <= |s| && InAlphabet(s[..k]) && (k < |s| ==> DigitOf(s[k]).NoDigit?)
  {
    if s == [] || DigitOf(s[0]).NoDigit? then 0
    else
      var k := BodyLength(s[1..]);
      assert s[..k + 1] == [s[0]] + s[1..][..k];
      k + 1
  }

  /** A string decodes if it is blanks, characters of the alphabet, blanks. */
  predicate Decodable(s: Bytes) { var t := SkipSpaces(s); SkipSpaces(t[BodyLength(t)..]) == [] }

  function Body(s: Bytes): (b: Bytes)
    ensures InAlphabet(b)
  {
    var t := SkipSpaces(s);
    t[..BodyLength(t)]
  }

  method DecodeBase58(s: Bytes) returns (ok: bool, vchRet: Bytes)
    ensures ok == Decodable(s)
    ensures ok ==> vchRet == Decoded(Body(s))
  {
    hide Magnitude, FromMagnitude, Leading, DigitOf, CharOf, IsSpace, NumberOf, Getvch;
    vchRet := [];
    var psz := s;
    while psz != [] && IsSpace(psz[0])
      invariant SkipSpaces(psz) == SkipSpaces(s)
      decreases |psz|
    {
      psz := psz[1..];
    }
    var bn, p := ReadNumber(psz);
    var q := p;
    while q < |psz| && IsSpace(psz[q])
      invariant p <= q <= |psz| && SkipSpaces(psz[q..]) == SkipSpaces(psz[p..])
    {
      assert psz[q..][1..] == psz[q + 1..];
      q := q + 1;
    }
    if q < |psz| { return false, vchRet; }
    var vchTmp := Getvch(bn);
    SignByteTrimmed(bn);
    if |vchTmp| >= 2 && vchTmp[|vchTmp| - 1] == 0 && vchTmp[|vchTmp| - 2] >= 0x80 {
      vchTmp := vchTmp[..|vchTmp| - 1];
    }
    var nLeadingZeros := CountOnes(psz, p);
    vchRet := Repeat(0, nLeadingZeros) + Rev(vchTmp);
    ok := true;
  }

  /** Read characters of the alphabet into a number. */
  method ReadNumber(psz: Bytes) returns (bn: nat, p: nat)
    ensures p == BodyLength(psz) && bn == NumberOf(psz[..p])
  {
    hide DigitOf, NumberOf;
    bn, p := 0, 0;
    NumberOfNothing(psz);
    while p < |psz| && DigitOf(psz[p]).Digit?
      invariant 0 <= p <= |psz| && InAlphabet(psz[..p]) && bn == NumberOf(psz[..p])
    {
      NextDigit(psz, p);
      bn := bn * 58 + DigitOf(psz[p]).d;
      p := p + 1;
    }
    BodyEnds(psz, p);
  }

  lemma NumberOfNothing(s: Bytes)
    ensures InAlphabet(s[..0]) && NumberOf(s[..0]) == 0
  {
  }

  /** Count the '1's in front. */
  method CountOnes(psz: Bytes, ghost p: nat) returns (nLeadingZeros: nat)
    requires p == BodyLength(psz)
    ensures nLeadingZeros == Leading(CharOf(0), psz[..p])
  {
    hide DigitOf, CharOf, Leading;
    AlphabetRoundTrip(0, 0);
    nLeadingZeros := 0;
    while nLeadingZeros < |psz| && psz[nLeadingZeros] == CharOf(0)
      invariant 0 <= nLeadingZeros <= p && forall i :: 0 <= i < nLeadingZeros ==> psz[i] == CharOf(0)
    {
      nLeadingZeros := nLeadingZeros + 1;
    }
    LeadingCount(CharOf(0), psz[..p], nLeadingZeros);
  }

  lemma BodyEnds(s: Bytes, p: nat)
    requires p <= |s| && InAlphabet(s[..p]) && (p < |s| ==> DigitOf(s[p]).NoDigit?)
    ensures BodyLength(s) == p
  {
    hide DigitOf;
    var k := BodyLength(s);
    assert forall i :: 0 <= i < k ==> s[i] == s[..k][i];
    assert forall i :: 0 <= i < p ==> s[i] == s[..p][i];
    assert k >= p && k <= p;
  }

  lemma NextDigit(s: Bytes, p: nat)
    requires p < |s| && InAlphabet(s[..p]) && DigitOf(s[p]).Digit?
    ensures InAlphabet(s[..p + 1]) && NumberOf(s[..p + 1]) == NumberOf(s[..p]) * 58 + DigitOf(s[p]).d
  {
    hide DigitOf;
    var d := DigitOf(s[p]).d;
    assert s[..p + 1] == s[..p] + [s[p]];
    assert DigitsOf(s[..p + 1]) == DigitsOf(s[..p]) + [d];
    RevRev(DigitsOf(s[..p]), [d]);
    assert Rev<digit>([d]) == [d];
    assert ([d] + Rev(DigitsOf(s[..p])))[1..] == Rev(DigitsOf(s[..p]));
  }

  /** The magnitude, once a sign byte has been removed. */
  lemma SignByteTrimmed(n: nat)
    ensures var v := Getvch(n);
      Magnitude(n) == if |v| >= 2 && v[|v| - 1] == 0 && v[|v| - 2] >= 0x80 then v[..|v| - 1] else v
  {
    hide Magnitude;
    var m, v := Magnitude(n), Getvch(n);
    if n > 0 && m[|m| - 1] >= 0x80 { assert v[..|v| - 1] == m; }
  }

  /** Blanks around an encoded string do not matter. */
  lemma {:induction false} BlanksIgnored(before: Bytes, s: Bytes, after: Bytes)
    requires InAlphabet(s) && (forall c :: c in before || c in after ==> IsSpace(c))
    ensures Decodable(before + s + after) && Body(before + s + after) == s
    decreases |before|
  {
    hide DigitOf, IsSpace;
    if before == [] {
      var t := s + after;
      assert before + s + after == t;
      NoSpaceInAlphabet(t, s, after);
      assert t[..|s|] == s && t[|s|..] == after;
      BodyEnds(t, |s|);
      SkipAll(after);
    } else {
      BlanksIgnored(before[1..], s, after);
      assert before[0] in before;
      assert (before + s + after)[1..] == before[1..] + s + after;
    }
  }

  lemma NoSpaceInAlphabet(t: Bytes, s: Bytes, after: Bytes)
    requires t == s + after && InAlphabet(s) && forall c :: c in after ==> IsSpace(c)
    ensures s != [] ==> SkipSpaces(t) == t
    ensures s == [] ==> SkipSpaces(t) == []
    ensures after != [] ==> DigitOf(after[0]).NoDigit?
  {
    if s != [] { assert DigitOf(t[0]).Digit?; } else { SkipAll(after); assert t == after; }
    if after != [] { assert after[0] in after; }
  }

  lemma {:induction false} SkipAll(s: Bytes)
    requires forall c :: c in s ==> IsSpace(c)
    ensures SkipSpaces(s) == []
    decreases |s|
  {
    if s != [] {
      assert s[0] in s;
      SkipAll(s[1..]);
    }
  }

  // ----- with a checksum ------------------------------------------------------------------------------------------

  type Four = s: Bytes | |s| == 4 witness [0, 0, 0, 0]

  method EncodeBase58Check(checksum: Bytes -> Four, vchIn: Bytes) returns (str: Bytes)
    ensures str == Encoded(vchIn + checksum(vchIn))
  {
    var vch := vchIn + checksum(vchIn);
    str := EncodeBase58(vch);
  }

  method DecodeBase58Check(checksum: Bytes -> Four, s: Bytes) returns (ok: bool, vchRet: Bytes)
    ensures ok <==> Decodable(s) && exists v :: Decoded(Body(s)) == v + checksum(v)
    ensures ok ==> Decoded(Body(s)) == vchRet + checksum(vchRet)
  {
    hide Decoded, Body, Decodable;
    ok, vchRet := DecodeBase58(s);
    if !ok { return; }
    var full := vchRet;
    if |full| < 4 {
      forall v ensures full != v + checksum(v) { EndsIn(v, checksum(v)); }
      return false, [];
    }
    var data, check := full[..|full| - 4], full[|full| - 4..];
    if checksum(data) != check {
      forall v ensures full != v + checksum(v) { EndsIn(v, checksum(v)); }
      return false, [];
    }
    vchRet := data;
    assert full == data + check;
  }

  lemma EndsIn(a: Bytes, b: Four)
    ensures |a + b| >= 4 && (a + b)[..|a + b| - 4] == a && (a + b)[|a + b| - 4..] == b
  {
  }

  /** A checked string decodes to what was encoded, and only strings that encoding produces are
      accepted, up to blanks. */
  lemma CheckedRoundTrip(checksum: Bytes -> Four, v: Bytes, w: Bytes, s: Bytes)
    ensures var e := Encoded(v + checksum(v)); Decodable(e) && Body(e) == e && (Decoded(e) == w + checksum(w) ==> w == v)
    ensures Decodable(s) && Decoded(Body(s)) == v + checksum(v) ==> Body(s) == Encoded(v + checksum(v))
  {
    hide Decodable, Body, Decoded, Encoded;
    var full := v + checksum(v);
    var e := Encoded(full);
    DecodeEncoded(full);
    BlanksIgnored([], e, []);
    assert [] + e + [] == e;
    if full == w + checksum(w) { assert w == full[..|full| - 4] == v; }
    EncodeDecoded(Body(s));
  }
}
