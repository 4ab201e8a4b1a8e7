/** Base58 encoding of byte strings. */
module Base58 {
  import opened Options
  import opened Numerals

  // ---------- the alphabet ----------

  /** All alphanumeric characters except for "0", "I", "O" and "l". */
  const ALPHABET := "123456789" + "ABCDEFGH" + "JKLMN" + "PQRSTUVWXYZ" + "abcdefghijk" + "mnopqrstuvwxyz"

  /** The digit that a character stands for, or -1. */
  function DigitOf(c: char): (d: int)
    ensures -1 <= d < 58
  {
    if '1' <= c <= '9' then c as int - '1' as int
    else if 'A' <= c <= 'H' then c as int - 'A' as int + 9
    else if 'J' <= c <= 'N' then c as int - 'J' as int + 17
    else if 'P' <= c <= 'Z' then c as int - 'P' as int + 22
    else if 'a' <= c <= 'k' then c as int - 'a' as int + 33
    else if 'm' <= c <= 'z' then c as int - 'm' as int + 44
    else -1
  }

  /** Consecutive characters. */
  ghost predicate Range(s: string, first: char) {
    forall k :: 0 <= k < |s| ==> s[k] as int == first as int + k
  }

  lemma Ranges()
    ensures Range("123456789", '1') && Range("ABCDEFGH", 'A') && Range("JKLMN", 'J')
    ensures Range("PQRSTUVWXYZ", 'P') && Range("abcdefghijk", 'a') && Range("mnopqrstuvwxyz", 'm')
  {
  }

  /** The table and the alphabet are inverse to each other. */
  lemma AlphabetDigits(d: nat)
    requires d < 58
    ensures |ALPHABET| == 58 && DigitOf(ALPHABET[d]) == d
  {
    Ranges();
  }

  lemma DigitAlphabet(c: char)
    requires DigitOf(c) >= 0
    ensures |ALPHABET| == 58 && ALPHABET[DigitOf(c)] == c
  {
    Ranges();
  }

  predicate IsSpace(c: char) {
    c == ' ' || '\t' <= c <= '\r'
  }

  ghost predicate AllBase58(w: string) {
    forall k :: 0 <= k < |w| ==> DigitOf(w[k]) >= 0
  }

  ghost function DigitsOf(w: string): (s: seq<nat>)
    requires AllBase58(w)
    ensures |s| == |w| && Digits(s, 58) && forall k :: 0 <= k < |w| ==> s[k] == DigitOf(w[k])
  {
    seq(|w|, k requires 0 <= k < |w| => DigitOf(w[k]))
  }

  // ---------- what encodes what ----------

  /** The number of leading zeros. */
  ghost function Zeros(s: seq<nat>): (z: nat)
    ensures z <= |s| && (forall k :: 0 <= k < z ==> s[k] == 0) && NoLeadingZero(s[z..])
  {
    if |s| > 0 && s[0] == 0 then
      var z := 1 + Zeros(s[1..]);
      assert forall k :: 1 <= k < z ==> s[k] == s[1..][k - 1];
      assert s[1..][z - 1..] == s[z..];
      z
    else 0
  }

  lemma ZerosAre(s: seq<nat>, z: nat)
    requires z <= |s| && (forall k :: 0 <= k < z ==> s[k] == 0) && NoLeadingZero(s[z..])
    ensures Zeros(s) == z
  {
    var y := Zeros(s);
    assert y < |s| ==> s[y..][0] == s[y];
    assert z < |s| ==> s[z..][0] == s[z];
  }

  /** `w` is the Base58 encoding of the bytes `x`: a '1' for each leading zero, then the digits of the number
      that the rest makes. */
  ghost predicate Encodes(w: string, x: seq<nat>) {
    && Digits(x, 256) && AllBase58(w)
    && Zeros(DigitsOf(w)) == Zeros(x)
    && Value(DigitsOf(w)[Zeros(x)..], 58) == Value(x[Zeros(x)..], 256)
  }

  lemma ZerosThen(s: seq<nat>, t: seq<nat>)
    requires Zeros(s) == Zeros(t) && s[Zeros(s)..] == t[Zeros(t)..]
    ensures s == t
  {
    var z := Zeros(s);
    assert s == s[..z] + s[z..] && t == t[..z] + t[z..];
    assert s[..z] == t[..z];
  }

  /** A string encodes at most one byte string. */
  lemma DecodingUnique(w: string, x: seq<nat>, y: seq<nat>)
    requires Encodes(w, x) && Encodes(w, y)
    ensures x == y
  {
    var z := Zeros(x);
    Unique(x[z..], y[z..], 256);
    ZerosThen(x, y);
  }

  /** A byte string has at most one encoding. */
  lemma EncodingUnique(w: string, v: string, x: seq<nat>)
    requires Encodes(w, x) && Encodes(v, x)
    ensures w == v
  {
    var z, s, t := Zeros(x), DigitsOf(w), DigitsOf(v);
    Unique(s[z..], t[z..], 58);
    ZerosThen(s, t);
    forall k | 0 <= k < |w|
      ensures w[k] == v[k]
    {
      assert s[k] == t[k];
      DigitAlphabet(w[k]);
      DigitAlphabet(v[k]);
    }
  }

  // ---------- enough room for the digits ----------

  /** 138/100 digits per byte are enough: 58^11 > 256^8. */
  lemma RoomForDigits(n: nat)
    ensures Pow(256, n) <= Pow(58, n * 138 / 100 + 1)
  {
    var s := n * 138 / 100 + 1;
    assert Pow(256, 8) <= Pow(58, 11) by {
      assert Pow(256, 8) == 18446744073709551616;
      PowAdd(58, 5, 6);
      assert Pow(58, 5) == 656356768 && Pow(58, 6) == 38068692544;
    }
    PowBase(Pow(256, 8), Pow(58, 11), n);
    PowMul(256, 8, n);
    PowMul(58, 11, n);
    assert 8 * s >= 11 * n;
    PowMonotone(58, 11 * n, 8 * s);
    PowMul(58, s, 8);
    PowMul(256, n, 8);
    assert 8 * n == n * 8 && 8 * s == s * 8;
    Root(Pow(256, n), Pow(58, s), 8);
  }

  lemma Fifty8To71()
    ensures Pow(58, 71) <= Pow(256, 52)
  {
    PowAdd(58, 4, 4);
    assert Pow(58, 4) == 11316496;
    assert Pow(58, 8) == 128063081718016;
    PowAdd(58, 8, 8);
    var p16 := 128063081718016 * 128063081718016;
    assert Pow(58, 16) == p16;
    PowAdd(58, 16, 16);
    var p32 := p16 * p16;
    assert Pow(58, 32) == p32;
    PowAdd(58, 32, 32);
    PowAdd(58, 64, 4);
    PowAdd(58, 68, 3);
    assert Pow(58, 3) == 195112;
    assert Pow(58, 71) == p32 * p32 * 11316496 * 195112;
    PowAdd(256, 4, 4);
    assert Pow(256, 4) == 4294967296;
    assert Pow(256, 8) == 18446744073709551616;
    PowAdd(256, 8, 8);
    var q16 := 18446744073709551616 * 18446744073709551616;
    assert Pow(256, 16) == q16;
    PowAdd(256, 16, 16);
    PowAdd(256, 32, 16);
    PowAdd(256, 48, 4);
    assert Pow(256, 52) == q16 * q16 * q16 * 4294967296;
  }

  /** 733/1000 bytes per character are enough: 256^52 > 58^71. */
  lemma RoomForBytes(n: nat)
    ensures Pow(58, n) <= Pow(256, n * 733 / 1000 + 1)
  {
    var s := n * 733 / 1000 + 1;
    Fifty8To71();
    PowBase(Pow(58, 71), Pow(256, 52), n);
    PowMul(58, 71, n);
    PowMul(256, 52, n);
    assert 71 * s >= 52 * n;
    PowMonotone(256, 52 * n, 71 * s);
    PowMul(256, s, 71);
    PowMul(58, n, 71);
    assert 71 * n == n * 71 && 71 * s == s * 71;
    Root(Pow(58, n), Pow(256, s), 71);
  }

  // ---------- multiply and add ----------

  /** The last `i` digits. */
  ghost function Low(s: seq<nat>, i: nat): seq<nat>
    requires i <= |s|
  {
    s[|s| - i..]
  }

  lemma LowNext(s: seq<nat>, i: nat, base: nat)
    requires i < |s|
    ensures Value(Low(s, i + 1), base) == s[|s| - i - 1] * Pow(base, i) + Value(Low(s, i), base)
  {
    var d := s[|s| - i - 1];
    assert Low(s, i + 1) == [d] + Low(s, i);
    ValueConcat([d], Low(s, i), base);
    assert [d][..0] == [];
    assert Value([d], base) == d;
  }

  /** One digit of the multiplication. */
  lemma CarryStep(p: nat, d: nat, mul: nat, carry: nat, base: nat, low: nat, low': nat, c0: nat)
    requires base > 0 && low' + carry * p == low * mul + c0
    ensures var c := carry + mul * d;
      (c % base) * p + low' + (c / base) * (base * p) == (d * p + low) * mul + c0
  {
    var c := carry + mul * d;
    assert c == base * (c / base) + c % base;
    assert (c / base) * (base * p) + (c % base) * p == c * p by {
      assert (c / base) * (base * p) == (base * (c / base)) * p;
      assert (base * (c / base)) * p + (c % base) * p == (base * (c / base) + c % base) * p;
    }
    assert c * p == carry * p + mul * d * p;
    assert (d * p + low) * mul == mul * d * p + low * mul;
  }

  ghost predicate ZerosUpTo(s: seq<nat>, n: int) {
    forall k :: 0 <= k < |s| && k < n ==> s[k] == 0
  }

  lemma ZerosOnTop(s: seq<nat>, i: nat, base: nat)
    requires i <= |s| && ZerosUpTo(s, |s| - i)
    ensures Value(s, base) == Value(Low(s, i), base)
  {
    var top := s[..|s| - i];
    assert s == top + Low(s, i);
    ValueConcat(top, Low(s, i), base);
    ZerosValue(top, base);
  }

  /** The number only grows, so that its leading digit stays where it is or moves up. */
  lemma StillLeading(s: seq<nat>, s': seq<nat>, i: nat, base: nat)
    requires |s| == |s'| && 0 < i <= |s| && base > 0 && Digits(s', base)
    requires ZerosUpTo(s, |s| - i) && ZerosUpTo(s', |s| - i) && s[|s| - i] > 0
    requires Value(s, base) <= Value(s', base)
    ensures s'[|s| - i] > 0
  {
    ZerosOnTop(s, i, base);
    LeadingBound(Low(s, i), base);
    if s'[|s| - i] == 0 {
      ZerosOnTop(s', i - 1, base);
      ValueBound(Low(s', i - 1), base);
    }
  }

  /** The number is in the last `length` digits, and has no fewer. */
  ghost predicate InUse(s: seq<nat>, length: nat, base: nat) {
    && length <= |s| && Digits(s, base) && ZerosUpTo(s, |s| - length)
    && (length > 0 ==> s[|s| - length] > 0)
  }

  /** Multiply the number in the buffer, of which the last `length` digits are in use, and add to it. */
  method MulAdd(buf: array<nat>, length: nat, base: nat, mul: nat, c0: nat) returns (i: nat, carry: nat)
    requires base > 1 && mul > 0 && InUse(buf[..], length, base)
    requires Value(buf[..], base) * mul + c0 < Pow(base, buf.Length)
    modifies buf
    ensures carry == 0 && length <= i <= buf.Length && InUse(buf[..], i, base)
    ensures Value(buf[..], base) == old(Value(buf[..], base)) * mul + c0
  {
    hide Pow, Value, Digits, ZerosUpTo, InMulAdd;
    ghost var s := buf[..];
    i, carry := 0, c0;
    MulAddStarts(s, length, base, mul, c0);
    while (carry != 0 || i < length) && i < buf.Length
      invariant i <= buf.Length && InMulAdd(s, buf[..], length, i, carry, base, mul, c0)
      decreases buf.Length - i
    {
      var at := buf.Length - i - 1;
      ghost var t := buf[..];
      carry := carry + mul * buf[at];
      ghost var c := carry;
      buf[at] := carry % base;
      carry := carry / base;
      assert buf[..] == t[at := c % base];
      MulAddStep(s, t, length, i, c - mul * t[at], base, mul, c0, at, c % base, carry);
      i := i + 1;
    }
    MulAddEnds(s, buf[..], length, i, carry, base, mul, c0);
  }

  /** The last `i` digits have been multiplied, and `carry` is left. */
  ghost predicate InMulAdd(s: seq<nat>, t: seq<nat>, length: nat, i: nat, carry: nat, base: nat, mul: nat, c0: nat) {
    && |t| == |s| && i <= |s| && Digits(t, base)
    && (forall k :: 0 <= k < |s| - i ==> t[k] == s[k])
    && Value(Low(t, i), base) + carry * Pow(base, i) == Value(Low(s, i), base) * mul + c0
    && (i > length ==> carry > 0 || t[|s| - i] > 0)
  }

  lemma MulAddStarts(s: seq<nat>, length: nat, base: nat, mul: nat, c0: nat)
    requires Digits(s, base)
    ensures InMulAdd(s, s, length, 0, c0, base, mul, c0)
  {
    assert Low(s, 0) == [];
    assert 0 * mul == 0;
  }

  lemma MulAddStep(s: seq<nat>, t: seq<nat>, length: nat, i: nat, carry: nat, base: nat, mul: nat, c0: nat, at: nat,
      digit: nat, carry': nat)
    requires base > 1 && i < |s| == |t| && at == |s| - i - 1
    requires digit == (carry + mul * t[at]) % base && carry' == (carry + mul * t[at]) / base
    requires InMulAdd(s, t, length, i, carry, base, mul, c0) && (carry != 0 || i < length)
    requires ZerosUpTo(s, |s| - length)
    ensures InMulAdd(s, t[at := digit], length, i + 1, carry', base, mul, c0)
  {
    hide Pow, Value;
    var t' := t[at := digit];
    LowNext(s, i, base);
    LowNext(t', i, base);
    assert Low(t', i) == Low(t, i);
    PowNext(base, i);
    CarryStep(Pow(base, i), s[at], mul, carry, base, Value(Low(s, i), base), Value(Low(t, i), base), c0);
    TopDigit(s[at], mul, carry, base, i >= length);
  }

  /** Above the digits in use, the digit written is zero only if the carry goes on. */
  lemma TopDigit(d: nat, mul: nat, carry: nat, base: nat, above: bool)
    requires base > 1 && (above ==> d == 0 && carry > 0)
    ensures (carry + mul * d) % base < base
    ensures above ==> (carry + mul * d) / base > 0 || (carry + mul * d) % base > 0
  {
    if above {
      assert mul * d == 0;
      assert carry == base * (carry / base) + carry % base;
    }
  }

  lemma PowNext(base: nat, i: nat)
    ensures Pow(base, i + 1) == base * Pow(base, i)
  {
  }

  lemma NoCarryLeft(v: nat, carry: nat, p: nat)
    requires v + carry * p < p
    ensures carry == 0
  {
    if carry > 0 {
      MulMonotone(1, carry, p, p);
    }
  }

  lemma MulAddEnds(s: seq<nat>, t: seq<nat>, length: nat, i: nat, carry: nat, base: nat, mul: nat, c0: nat)
    requires InMulAdd(s, t, length, i, carry, base, mul, c0) && base > 1 && mul > 0 && InUse(s, length, base)
    requires Value(s, base) * mul + c0 < Pow(base, |s|)
    requires (carry == 0 && i >= length) || i == |s|
    ensures carry == 0 && length <= i && InUse(t, i, base)
    ensures Value(t, base) == Value(s, base) * mul + c0
  {
    hide Pow, Value;
    ZerosOnTop(s, i, base);
    if i == |s| {
      NoCarryLeft(Value(Low(t, i), base), carry, Pow(base, i));
    }
    ZerosOnTop(t, i, base);
    if i == length && i > 0 {
      MulMonotone(Value(s, base), Value(s, base), 1, mul);
      StillLeading(s, t, i, base);
    }
  }

  // ---------- encoding ----------

  lemma NothingInUse(s: seq<nat>, base: nat)
    requires base > 0 && forall k :: 0 <= k < |s| ==> s[k] == 0
    ensures InUse(s, 0, base) && Value(s, base) == 0
  {
    ZerosValue(s, base);
  }

  lemma NextByteFits(rest: seq<nat>, j: nat)
    requires Digits(rest, 256) && j < |rest|
    ensures Value(rest[..j + 1], 256) == Value(rest[..j], 256) * 256 + rest[j] < Pow(58, |rest| * 138 / 100 + 1)
  {
    assert rest[..j + 1][..j] == rest[..j];
    ValueBound(rest[..j + 1], 256);
    PowMonotone(256, j + 1, |rest|);
    RoomForDigits(|rest|);
  }

  /** The text of the digits from `it` on. */
  ghost predicate TextOf(str: string, zeroes: nat, s: seq<nat>) {
    && |str| == zeroes + |s| && AllBase58(str)
    && (forall k :: 0 <= k < zeroes ==> str[k] == '1')
    && (forall k :: 0 <= k < |s| ==> DigitOf(str[zeroes + k]) == s[k])
  }

  lemma TextNext(str: string, zeroes: nat, s: seq<nat>, d: nat)
    requires TextOf(str, zeroes, s) && d < 58
    ensures |ALPHABET| == 58 && TextOf(str + [ALPHABET[d]], zeroes, s + [d])
  {
    hide DigitOf;
    AlphabetDigits(d);
  }

  lemma TextEncodes(str: string, input: seq<nat>, zeroes: nat, s: seq<nat>)
    requires TextOf(str, zeroes, s) && Digits(input, 256) && NoLeadingZero(s)
    requires zeroes <= |input| && (forall k :: 0 <= k < zeroes ==> input[k] == 0) && NoLeadingZero(input[zeroes..])
    requires Value(s, 58) == Value(input[zeroes..], 256)
    ensures Encodes(str, input)
  {
    hide Value;
    var ds := DigitsOf(str);
    assert ds[zeroes..] == s;
    ZerosAre(input, zeroes);
    ZerosAre(ds, zeroes);
  }

  lemma SkippedZeros(s: seq<nat>, it: nat, base: nat)
    requires Digits(s, base) && it <= |s| && ZerosUpTo(s, it)
    ensures Value(s[it..], base) == Value(s, base) && Digits(s[it..], base)
  {
    hide Value;
    ZerosOnTop(s, |s| - it, base);
    assert Low(s, |s| - it) == s[it..];
  }

  lemma InUseZeros(s: seq<nat>, length: nat, base: nat)
    requires InUse(s, length, base)
    ensures length <= |s| && ZerosUpTo(s, |s| - length) && Digits(s, base)
  {
  }

  method EncodeBase58(input: seq<nat>) returns (str: string)
    requires Digits(input, 256)
    ensures Encodes(str, input)
  {
    hide Value, Pow, InUse, Digits, DigitOf, Encodes, TextOf;
    var zeroes := 0;
    while zeroes < |input| && input[zeroes] == 0
      invariant zeroes <= |input| && forall k :: 0 <= k < zeroes ==> input[k] == 0
    {
      zeroes := zeroes + 1;
    }
    var rest := input[zeroes..];
    SuffixDigits(input, zeroes, 256);
    var size := |rest| * 138 / 100 + 1;
    var b58 := new nat[size](_ => 0);
    NothingInUse(b58[..], 58);
    EmptyValue(256);
    var length := 0;
    for j := 0 to |rest|
      invariant InUse(b58[..], length, 58) && length <= size && Value(b58[..], 58) == Value(rest[..j], 256)
    {
      NextByteFits(rest, j);
      var i, carry := MulAdd(b58, length, 58, 256, rest[j]);
      assert carry == 0;
      length := i;
    }
    assert rest[..|rest|] == rest;
    InUseZeros(b58[..], length, 58);
    ghost var all := b58[..];
    var it := size - length;
    while it < size && b58[it] == 0
      invariant it <= size && b58[..] == all && ZerosUpTo(all, it)
    {
      it := it + 1;
    }
    SkippedZeros(all, it, 58);
    str := WriteText(b58, it, zeroes);
    assert b58[it..] == all[it..];
    TextEncodes(str, input, zeroes, all[it..]);
  }

  /** A one for each leading zero, and then the digits from `from` on. */
  method WriteText(b58: array<nat>, from: nat, zeroes: nat) returns (str: string)
    requires from <= b58.Length && Digits(b58[from..], 58)
    ensures TextOf(str, zeroes, b58[from..])
  {
    hide Digits, TextOf;
    ghost var all := b58[..];
    assert b58[from..] == all[from..];
    str := seq(zeroes, _ => '1');
    OnesText(str, zeroes);
    assert all[from..from] == [];
    for it := from to b58.Length
      invariant TextOf(str, zeroes, all[from..it])
    {
      DigitAt(all, from, it, 58);
      TextNext(str, zeroes, all[from..it], all[it]);
      assert all[from..it + 1] == all[from..it] + [all[it]];
      str := str + [ALPHABET[b58[it]]];
    }
    assert all[from..b58.Length] == all[from..];
  }

  lemma EmptyValue(base: nat)
    ensures Value([], base) == 0
  {
  }

  lemma OnesText(str: string, zeroes: nat)
    requires |str| == zeroes && forall k :: 0 <= k < zeroes ==> str[k] == '1'
    ensures TextOf(str, zeroes, [])
  {
  }

  lemma DigitAt(s: seq<nat>, from: nat, it: nat, base: nat)
    requires from <= it < |s| && Digits(s[from..], base)
    ensures s[it] < base
  {
    assert s[from..][it - from] == s[it];
  }

  lemma SuffixDigits(s: seq<nat>, z: nat, base: nat)
    requires Digits(s, base) && z <= |s|
    ensures Digits(s[z..], base)
  {
  }

  // ---------- decoding ----------

  /** Where a run of spaces that starts at `k` ends. */
  ghost function SpacesEnd(s: string, k: nat): (e: nat)
    requires k <= |s|
    ensures k <= e <= |s| && (e < |s| ==> !IsSpace(s[e])) && forall i :: k <= i < e ==> IsSpace(s[i])
    decreases |s| - k
  {
    if k < |s| && IsSpace(s[k]) then SpacesEnd(s, k + 1) else k
  }

  /** Where a run of other characters that starts at `k` ends. */
  ghost function WordEnd(s: string, k: nat): (e: nat)
    requires k <= |s|
    ensures k <= e <= |s| && (e < |s| ==> IsSpace(s[e])) && forall i :: k <= i < e ==> !IsSpace(s[i])
    decreases |s| - k
  {
    if k < |s| && !IsSpace(s[k]) then WordEnd(s, k + 1) else k
  }

  /** The one word in a string, without the spaces around it. */
  ghost function Word(s: string): Option<string> {
    var a := SpacesEnd(s, 0);
    var b := WordEnd(s, a);
    if SpacesEnd(s, b) == |s| then Some(s[a..b]) else None
  }

  /** The limit on the number of bytes; an empty result is never too long. */
  ghost predicate Fits(x: seq<nat>, max: int) {
    |x| <= max || |x| == 0
  }

  /** No byte string within the limit is encoded by the word of the string. */
  ghost predicate NoneFits(s: string, max: int) {
    Word(s).Some? ==> forall x :: Encodes(Word(s).value, x) ==> !Fits(x, max)
  }

  lemma InvalidWord(s: string, p: nat, max: int)
    requires SpacesEnd(s, 0) <= p < WordEnd(s, SpacesEnd(s, 0)) && DigitOf(s[p]) < 0
    ensures NoneFits(s, max)
  {
    if Word(s).Some? {
      var w := Word(s).value;
      assert w[p - SpacesEnd(s, 0)] == s[p];
      assert !AllBase58(w);
    }
  }

  lemma NulInside(s: string, max: int)
    requires '\0' in s
    ensures NoneFits(s, max)
  {
    var p :| 0 <= p < |s| && s[p] == '\0';
    assert !IsSpace(s[p]) && DigitOf(s[p]) < 0;
    if Word(s).Some? {
      var a := SpacesEnd(s, 0);
      assert a <= p < WordEnd(s, a);
      InvalidWord(s, p, max);
    }
  }

  /** The word starts with `zeroes` ones. */
  ghost predicate OnesFrom(s: string, a: nat, zeroes: nat) {
    a + zeroes <= |s| && forall k :: a <= k < a + zeroes ==> s[k] == '1'
  }

  lemma TooManyOnes(s: string, zeroes: nat, max: int)
    requires OnesFrom(s, SpacesEnd(s, 0), zeroes) && zeroes > max && zeroes > 0
    ensures NoneFits(s, max)
  {
    var a := SpacesEnd(s, 0);
    var b := WordEnd(s, a);
    if Word(s).Some? {
      assert a + zeroes <= b by {
        assert b < |s| ==> IsSpace(s[b]);
      }
      forall x | Encodes(s[a..b], x)
        ensures !Fits(x, max)
      {
        OnesAreZeros(s[a..b], zeroes);
      }
    }
  }

  lemma OnesAreZeros(w: string, zeroes: nat)
    requires AllBase58(w) && zeroes <= |w| && forall k :: 0 <= k < zeroes ==> w[k] == '1'
    ensures Zeros(DigitsOf(w)) >= zeroes
  {
    var z, ds := Zeros(DigitsOf(w)), DigitsOf(w);
    assert z < |ds| ==> ds[z..][0] == ds[z];
  }

  lemma OnesExactly(w: string, zeroes: nat)
    requires AllBase58(w) && zeroes <= |w| && (forall k :: 0 <= k < zeroes ==> w[k] == '1')
    requires zeroes < |w| ==> w[zeroes] != '1'
    ensures Zeros(DigitsOf(w)) == zeroes
  {
    var ds := DigitsOf(w);
    assert zeroes < |ds| ==> ds[zeroes..][0] == ds[zeroes];
    ZerosAre(ds, zeroes);
  }

  /** More digits make no smaller number. */
  lemma PrefixValue(s: seq<nat>, n: nat, base: nat)
    requires n <= |s| && base > 0
    ensures Value(s[..n], base) <= Value(s, base)
  {
    assert s == s[..n] + s[n..];
    ValueConcat(s[..n], s[n..], base);
    MulMonotone(Value(s[..n], base), Value(s[..n], base), 1, Pow(base, |s| - n));
  }

  /** A number in use at some length has no shorter representation. */
  lemma NotShorter(buf: seq<nat>, length: nat, y: seq<nat>, base: nat)
    requires InUse(buf, length, base) && base > 1 && Digits(y, base) && Value(buf, base) <= Value(y, base)
    ensures length <= |y|
  {
    hide Value, Pow;
    if length > 0 {
      ZerosOnTop(buf, length, base);
      LeadingBound(Low(buf, length), base);
      ValueBound(y, base);
      if |y| < length {
        PowMonotone(base, |y|, length - 1);
      }
    }
  }

  lemma EncodedValue(w: string, zeroes: nat, x: seq<nat>)
    requires AllBase58(w) && Zeros(DigitsOf(w)) == zeroes && Encodes(w, x)
    ensures zeroes <= |w| && zeroes <= |x| && Digits(x[zeroes..], 256)
    ensures Value(DigitsOf(w)[zeroes..], 58) == Value(x[zeroes..], 256)
  {
    hide Value;
  }

  lemma TooLong(w: string, zeroes: nat, n: nat, buf: seq<nat>, length: nat, x: seq<nat>)
    requires AllBase58(w) && zeroes <= n <= |w| && Zeros(DigitsOf(w)) == zeroes && Encodes(w, x)
    requires InUse(buf, length, 256) && Value(buf, 256) == Value(DigitsOf(w)[zeroes..n], 58)
    ensures |x| >= zeroes + length
  {
    hide Value, InUse, DigitsOf;
    EncodedValue(w, zeroes, x);
    var ds := DigitsOf(w);
    assert ds[zeroes..][..n - zeroes] == ds[zeroes..n];
    PrefixValue(ds[zeroes..], n - zeroes, 58);
    NotShorter(buf, length, x[zeroes..], 256);
  }

  lemma DecodedEncodes(w: string, zeroes: nat, buf: seq<nat>, length: nat, x: seq<nat>)
    requires AllBase58(w) && zeroes <= |w| && Zeros(DigitsOf(w)) == zeroes
    requires InUse(buf, length, 256) && Value(buf, 256) == Value(DigitsOf(w)[zeroes..], 58)
    requires |x| == zeroes + length && (forall k :: 0 <= k < zeroes ==> x[k] == 0) && x[zeroes..] == Low(buf, length)
    ensures Encodes(w, x)
  {
    hide Value;
    ZerosOnTop(buf, length, 256);
    ZerosAre(x, zeroes);
    forall k | 0 <= k < |x|
      ensures x[k] < 256
    {
      if k >= zeroes {
        assert x[k] == x[zeroes..][k - zeroes];
      }
    }
  }

  /** The word starts at `a`, with `zeroes` ones, and the number made by its characters from there up to `p`
      is in the buffer. */
  ghost predicate InWord(s: string, a: nat, zeroes: nat, p: nat, buf: seq<nat>, length: nat) {
    && a == SpacesEnd(s, 0) && a + zeroes <= p <= WordEnd(s, a)
    && AllBase58(s[a..p]) && OnesFrom(s, a, zeroes)
    && (a + zeroes < |s| ==> s[a + zeroes] != '1')
    && InUse(buf, length, 256)
    && Value(buf, 256) == Value(DigitsOf(s[a..p])[zeroes..], 58)
  }

  lemma WordStarts(s: string, a: nat, zeroes: nat, p: nat, buf: seq<nat>)
    requires a == SpacesEnd(s, 0) && p == a + zeroes && OnesFrom(s, a, zeroes) && (p < |s| ==> s[p] != '1')
    requires forall k :: 0 <= k < |buf| ==> buf[k] == 0
    ensures InWord(s, a, zeroes, p, buf, 0)
  {
    hide Value, InUse, DigitOf, IsSpace, WordEnd, SpacesEnd, AllBase58, DigitsOf;
    NothingInUse(buf, 256);
    OnesInWord(s, a, zeroes);
    NoDigits(s[a..p], zeroes);
  }

  lemma NoDigits(word: string, zeroes: nat)
    requires AllBase58(word) && |word| == zeroes
    ensures Value(DigitsOf(word)[zeroes..], 58) == 0
  {
    hide AllBase58;
    EmptyValue(58);
  }

  lemma OnesInWord(s: string, a: nat, zeroes: nat)
    requires a <= |s| && OnesFrom(s, a, zeroes)
    ensures a + zeroes <= WordEnd(s, a) && AllBase58(s[a..a + zeroes])
  {
    hide DigitOf, IsSpace;
    OneChar();
    assert WordEnd(s, a) < |s| ==> IsSpace(s[WordEnd(s, a)]);
    var word := s[a..a + zeroes];
    forall k | 0 <= k < |word|
      ensures DigitOf(word[k]) >= 0
    {
      assert word[k] == s[a + k] == '1';
    }
  }

  lemma OneChar()
    ensures !IsSpace('1') && DigitOf('1') == 0
  {
  }

  lemma NextCharFits(s: string, a: nat, zeroes: nat, p: nat, buf: seq<nat>, length: nat)
    requires InWord(s, a, zeroes, p, buf, length) && p < |s| && DigitOf(s[p]) >= 0
    requires |buf| == (|s| - (a + zeroes)) * 733 / 1000 + 1
    ensures Value(buf, 256) * 58 + DigitOf(s[p]) < Pow(256, |buf|)
  {
    hide Pow, InUse, DigitOf, IsSpace, Value;
    var n, d := |s| - (a + zeroes), DigitOf(s[p]);
    var ds := DigitsOf(s[a..p])[zeroes..];
    SuffixDigits(DigitsOf(s[a..p]), zeroes, 58);
    ValueNext(ds, d, 58);
    ValueBound(ds + [d], 58);
    PowMonotone(58, |ds + [d]|, n);
    RoomForBytes(n);
  }

  lemma ValueNext(ds: seq<nat>, d: nat, base: nat)
    ensures Value(ds + [d], base) == Value(ds, base) * base + d
  {
    assert (ds + [d])[..|ds|] == ds;
  }

  lemma WordNext(s: string, a: nat, zeroes: nat, p: nat, buf: seq<nat>, length: nat, buf': seq<nat>, length': nat)
    requires InWord(s, a, zeroes, p, buf, length) && p < |s| && !IsSpace(s[p]) && DigitOf(s[p]) >= 0
    requires InUse(buf', length', 256) && Value(buf', 256) == Value(buf, 256) * 58 + DigitOf(s[p])
    ensures InWord(s, a, zeroes, p + 1, buf', length')
  {
    hide InUse, Value, DigitOf, IsSpace;
    var ds, ds' := DigitsOf(s[a..p]), DigitsOfNext(s, a, p);
    assert p < WordEnd(s, a);
    assert ds'[zeroes..] == ds[zeroes..] + [DigitOf(s[p])];
    ValueNext(ds[zeroes..], DigitOf(s[p]), 58);
  }

  ghost function DigitsOfNext(s: string, a: nat, p: nat): (ds: seq<nat>)
    requires a <= p < |s| && AllBase58(s[a..p]) && DigitOf(s[p]) >= 0
    ensures AllBase58(s[a..p + 1]) && ds == DigitsOf(s[a..p + 1]) && ds == DigitsOf(s[a..p]) + [DigitOf(s[p])]
  {
    assert s[a..p + 1] == s[a..p] + [s[p]];
    assert DigitsOf(s[a..p + 1]) == DigitsOf(s[a..p]) + [DigitOf(s[p])];
    DigitsOf(s[a..p + 1])
  }

  lemma SameDigits(s: string, w: string, a: nat, p: nat, zeroes: nat)
    requires a + zeroes <= p <= a + |w| <= |s| && w == s[a..a + |w|] && AllBase58(w)
    ensures AllBase58(s[a..p]) && DigitsOf(w)[zeroes..p - a] == DigitsOf(s[a..p])[zeroes..]
  {
    hide DigitOf;
    forall k | 0 <= k < p - a
      ensures s[a..p][k] == w[k]
    {
    }
  }

  lemma NotEmpty(w: string, x: seq<nat>)
    requires Encodes(w, x) && |w| > 0
    ensures |x| > 0
  {
    hide Value, Pow, DigitOf;
    if |x| == 0 {
      EmptyValue(256);
      assert DigitsOf(w)[0..] == DigitsOf(w);
      LeadingBound(DigitsOf(w), 58);
    }
  }

  lemma WordTooLong(s: string, a: nat, zeroes: nat, p: nat, buf: seq<nat>, length: nat, max: int)
    requires InWord(s, a, zeroes, p, buf, length) && length + zeroes > max && p > a
    ensures NoneFits(s, max)
  {
    hide Value, InUse, DigitOf, IsSpace, Zeros;
    if Word(s).Some? {
      var w := Word(s).value;
      forall x | Encodes(w, x)
        ensures !Fits(x, max)
      {
        OnesExactly(w, zeroes);
        SameDigits(s, w, a, p, zeroes);
        TooLong(w, zeroes, p - a, buf, length, x);
        NotEmpty(w, x);
      }
    }
  }

  lemma WordDone(s: string, a: nat, zeroes: nat, p: nat, buf: seq<nat>, length: nat, x: seq<nat>)
    requires InWord(s, a, zeroes, p, buf, length) && (p == |s| || IsSpace(s[p])) && SpacesEnd(s, p) == |s|
    requires |x| == zeroes + length && length <= |buf|
    requires (forall k :: 0 <= k < zeroes ==> x[k] == 0) && x[zeroes..] == Low(buf, length)
    ensures Word(s) == Some(s[a..p]) && Encodes(s[a..p], x)
  {
    hide Value, InUse;
    assert p == WordEnd(s, a);
    OnesExactly(s[a..p], zeroes);
    DecodedEncodes(s[a..p], zeroes, buf, length, x);
  }

  /** Skip spaces from `p` on. */
  method SkipSpaces(str: string, p: nat) returns (e: nat)
    requires p <= |str|
    ensures e == SpacesEnd(str, p)
  {
    e := p;
    while e < |str| && IsSpace(str[e])
      invariant p <= e <= |str| && SpacesEnd(str, e) == SpacesEnd(str, p)
    {
      e := e + 1;
    }
  }

  /** Read the characters of the word from `q` on into a buffer that is large enough for them. */
  method ReadWord(str: string, ghost a: nat, zeroes: nat, q: nat, max: int)
    returns (ok: bool, p: nat, b256: array<nat>, length: nat)
    requires a == SpacesEnd(str, 0) && q == a + zeroes && OnesFrom(str, a, zeroes) && (q < |str| ==> str[q] != '1')
    requires zeroes <= max || zeroes == 0
    ensures !ok ==> NoneFits(str, max)
    ensures ok ==> InWord(str, a, zeroes, p, b256[..], length) && p <= |str| && (p == |str| || IsSpace(str[p]))
    ensures ok ==> length + zeroes <= max || length + zeroes == 0
  {
    hide Value, Pow, InUse, InWord, NoneFits, DigitOf, IsSpace;
    var size := (|str| - q) * 733 / 1000 + 1;
    b256 := new nat[size](_ => 0);
    ok, p, length := true, q, 0;
    WordStarts(str, a, zeroes, p, b256[..]);
    while p < |str| && !IsSpace(str[p])
      invariant q <= p <= |str| && InWord(str, a, zeroes, p, b256[..], length)
      invariant length + zeroes <= max || length + zeroes == 0
      decreases |str| - p
    {
      InWordFacts(str, a, zeroes, p, b256[..], length);
      var digit := DigitOf(str[p]);
      if digit == -1 {
        InvalidWord(str, p, max);
        ok := false;
        return;
      }
      NextCharFits(str, a, zeroes, p, b256[..], length);
      ghost var was, had := b256[..], length;
      var i, carry := MulAdd(b256, length, 256, 58, digit);
      assert carry == 0;
      length := i;
      WordNext(str, a, zeroes, p, was, had, b256[..], length);
      p := p + 1;
      if length + zeroes > max {
        WordTooLong(str, a, zeroes, p, b256[..], length, max);
        ok := false;
        return;
      }
    }
  }

  /** The leading zeros and the bytes in use. */
  method CopyBytes(b256: array<nat>, length: nat, zeroes: nat) returns (x: seq<nat>)
    requires length <= b256.Length
    ensures |x| == zeroes + length && (forall k :: 0 <= k < zeroes ==> x[k] == 0)
    ensures x[zeroes..] == Low(b256[..], length)
  {
    x := seq(zeroes, _ => 0);
    var it := b256.Length - length;
    while it < b256.Length
      invariant b256.Length - length <= it <= b256.Length
      invariant |x| == zeroes + it - (b256.Length - length) && (forall k :: 0 <= k < zeroes ==> x[k] == 0)
      invariant x[zeroes..] == b256[b256.Length - length..it]
    {
      x := x + [b256[it]];
      it := it + 1;
    }
  }

  method DecodeBase58(str: string, max: int) returns (r: Option<seq<nat>>)
    ensures r.Some? ==> Word(str).Some? && Encodes(Word(str).value, r.value) && Fits(r.value, max)
    ensures r.None? ==> NoneFits(str, max)
    ensures r.Some? ==> (|r.value| <= max <==> max >= 0 || Word(str) != Some(""))
  {
    hide Value, Pow, InUse, InWord, Encodes, NoneFits, IsSpace, Word;
    if '\0' in str {
      NulInside(str, max);
      return None;
    }
    var p := SkipSpaces(str, 0);
    ghost var a := p;
    var zeroes := 0;
    while p < |str| && str[p] == '1'
      invariant p == a + zeroes && (zeroes <= max || zeroes == 0) && OnesFrom(str, a, zeroes)
    {
      zeroes := zeroes + 1;
      if zeroes > max {
        TooManyOnes(str, zeroes, max);
        return None;
      }
      p := p + 1;
    }
    var ok, e, b256, length := ReadWord(str, a, zeroes, p, max);
    if !ok {
      return None;
    }
    InWordFacts(str, a, zeroes, e, b256[..], length);
    p := SkipSpaces(str, e);
    if p != |str| {
      NotOneWord(str, a, e, p, max);
      return None;
    }
    ghost var all := b256[..];
    var x := CopyBytes(b256, length, zeroes);
    WordDone(str, a, zeroes, e, all, length, x);
    EmptyOnly(Word(str).value, x);
    return Some(x);
  }

  /** Only the empty word encodes nothing. */
  lemma EmptyOnly(w: string, x: seq<nat>)
    requires Encodes(w, x)
    ensures x == [] <==> w == ""
  {
    assert Encodes("", []) by {
      assert DigitsOf("") == [];
    }
    if x == [] {
      EncodingUnique(w, "", []);
    }
    if w == "" {
      DecodingUnique("", x, []);
    }
  }

  /** A limit below zero does not stop the empty word: its result is longer than the limit. */
  method DecodeNothing(max: int) returns (r: Option<seq<nat>>)
    requires max < 0
    ensures r == Some([]) && |r.value| > max
  {
    r := DecodeBase58("", max);
    WholeWord("");
    assert Encodes("", []) by {
      assert DigitsOf("") == [];
    }
    assert Fits([], max);
    DecodingUnique("", if r.Some? then r.value else [], []);
  }

  lemma InWordFacts(s: string, a: nat, zeroes: nat, p: nat, buf: seq<nat>, length: nat)
    requires InWord(s, a, zeroes, p, buf, length)
    ensures a == SpacesEnd(s, 0) && a <= a + zeroes <= p <= WordEnd(s, a) && InUse(buf, length, 256) && length <= |buf|
    ensures p < |s| && !IsSpace(s[p]) ==> p < WordEnd(s, a)
    ensures p < |s| && IsSpace(s[p]) ==> p == WordEnd(s, a)
    ensures p == |s| ==> p == WordEnd(s, a)
  {
  }

  lemma NotOneWord(s: string, a: nat, e: nat, p: nat, max: int)
    requires a == SpacesEnd(s, 0) && e <= |s| && e == WordEnd(s, a) && SpacesEnd(s, e) == p < |s|
    ensures NoneFits(s, max)
  {
  }

  /** Decoding the encoding of a byte string gives it back, if it is not too long for the caller. */
  method EncodeThenDecode(x: seq<nat>, max: int) returns (r: Option<seq<nat>>)
    requires Digits(x, 256) && Fits(x, max)
    ensures r == Some(x)
  {
    hide Fits;
    var str := EncodeBase58(x);
    r := DecodeBase58(str, max);
    WholeWord(str);
    if r.Some? {
      DecodingUnique(str, x, r.value);
    }
  }

  /** Encoding what a string without spaces decodes to gives the string back. */
  method DecodeThenEncode(str: string, max: int) returns (r: Option<string>)
    requires forall k :: 0 <= k < |str| ==> !IsSpace(str[k])
    ensures r.Some? ==> r.value == str
    ensures r.None? ==> NoneFits(str, max)
  {
    var x := DecodeBase58(str, max);
    if x.None? {
      return None;
    }
    var again := EncodeBase58(x.value);
    assert SpacesEnd(str, 0) == 0 && WordEnd(str, 0) == |str| && str[0..|str|] == str;
    EncodingUnique(str, again, x.value);
    return Some(again);
  }

  lemma WholeWord(w: string)
    requires AllBase58(w)
    ensures Word(w) == Some(w)
  {
    forall k | 0 <= k < |w|
      ensures !IsSpace(w[k])
    {
      assert DigitOf(w[k]) >= 0;
    }
    assert SpacesEnd(w, 0) == 0;
    assert WordEnd(w, 0) == |w|;
    assert w[0..|w|] == w;
  }
}
