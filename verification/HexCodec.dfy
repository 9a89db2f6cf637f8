/**
 A hexadecimal numeral and its bytes, least significant byte first. Strings are
 NUL-terminated character arrays, worked on in place. Reading one digit with strtol is a
 lookup that gives 0 for anything that is not a hexadecimal digit.
 */
module HexCodec {

  const NUL: char := '\0'

  // Two buffers that do not overlap.
  predicate Apart(a: object, b: object) { a != b }

  // ---------------------------------------------------------------- strings

  // Where the terminator is.
  function StrLen(s: seq<char>): nat
    requires NUL in s
  {
    if s[0] == NUL then 0 else 1 + StrLen(s[1..])
  }

  lemma {:induction false} StrLenIs(s: seq<char>, n: nat)
    requires n < |s| && s[n] == NUL && NUL !in s[..n]
    ensures NUL in s && StrLen(s) == n
  {
    if n > 0 {
      assert s[..n][0] == s[0];
      assert s[1..][..n-1] == s[..n][1..];
      StrLenIs(s[1..], n - 1);
    }
  }

  lemma {:induction false} StrLenBounds(s: seq<char>)
    requires NUL in s
    ensures StrLen(s) < |s| && s[StrLen(s)] == NUL && NUL !in s[..StrLen(s)]
  {
    if s[0] != NUL {
      StrLenBounds(s[1..]);
      var n := StrLen(s);
      assert s[..n] == [s[0]] + s[1..][..n-1];
    }
  }

  function Text(s: seq<char>): string
    requires NUL in s
  {
    StrLenBounds(s);
    s[..StrLen(s)]
  }

  function Reversed(s: string): string {
    seq(|s|, i requires 0 <= i < |s| => s[|s| - 1 - i])
  }

  method Length(a: array<char>) returns (n: nat)
    requires NUL in a[..]
    ensures n < a.Length && n == StrLen(a[..]) && a[..n] == Text(a[..])
    ensures NUL !in a[..n] && a[n] == NUL
  {
    StrLenBounds(a[..]);
    n := 0;
    while a[n] != NUL
      invariant n <= StrLen(a[..]) < a.Length
      invariant NUL !in a[..n]
      decreases a.Length - n
    {
      assert a[..n+1] == a[..n] + [a[n]];
      assert a[..][n] != NUL;
      n := n + 1;
    }
    StrLenIs(a[..], n);
  }

  /** Reverses the text in place and leaves the terminator and what follows alone. */
  method FlipString(a: array<char>)
    requires NUL in a[..]
    modifies a
    ensures var n := StrLen(old(a[..])); n < a.Length && a[..n] == Reversed(old(Text(a[..]))) && a[n..] == old(a[n..])
    ensures NUL in a[..] && Text(a[..]) == Reversed(old(Text(a[..])))
  {
    var n := Length(a);
    var i, j := 0, n - 1;
    while i <= j
      invariant 0 <= i <= n && j == n - 1 - i && i <= j + 2
      invariant forall k :: 0 <= k < i ==> a[k] == old(a[n - 1 - k])
      invariant forall k :: n - i <= k < n ==> a[k] == old(a[n - 1 - k])
      invariant forall k :: i <= k < n - i ==> a[k] == old(a[k])
      invariant forall k :: n <= k < a.Length ==> a[k] == old(a[k])
    {
      var c := a[i];
      a[i] := a[j];
      a[j] := c;
      i, j := i + 1, j - 1;
    }
    FlippedText(old(a[..]), a[..], n);
  }

  lemma {:induction false} FlippedText(was: seq<char>, now: seq<char>, n: nat)
    requires n < |was| == |now| && NUL in was && StrLen(was) == n
    requires forall k :: 0 <= k < n ==> now[k] == was[n - 1 - k]
    requires forall k :: n <= k < |was| ==> now[k] == was[k]
    ensures now[..n] == Reversed(Text(was)) && now[n..] == was[n..]
    ensures NUL in now && Text(now) == Reversed(Text(was))
  {
    StrLenBounds(was);
    assert now[..n] == Reversed(Text(was));
    StrLenIs(now, n);
  }

  // ---------------------------------------------------------------- digits and bytes

  predicate IsHexDigit(c: char) {
    '0' <= c <= '9' || 'a' <= c <= 'f' || 'A' <= c <= 'F'
  }

  predicate AllHex(s: string) {
    forall i :: 0 <= i < |s| ==> IsHexDigit(s[i])
  }

  // strtol of one character, base 16.
  function Digit(c: char): (d: bv8)
    ensures d < 16
  {
    if '0' <= c <= '9' then (c as int - '0' as int) as bv8
    else if 'a' <= c <= 'f' then (c as int - 'a' as int + 10) as bv8
    else if 'A' <= c <= 'F' then (c as int - 'A' as int + 10) as bv8
    else 0
  }

  // sprintf of one digit with %1x.
  function HexChar(d: bv8): char
    requires d < 16
  {
    "0123456789abcdef"[d]
  }

  function LowerChar(c: char): char {
    if 'A' <= c <= 'Z' then (c as int - 'A' as int + 'a' as int) as char else c
  }

  function Lower(s: string): string {
    seq(|s|, i requires 0 <= i < |s| => LowerChar(s[i]))
  }

  // The digits a byte is made of.
  function Nibbles(lo: bv8, hi: bv8): bv8 { lo | (hi << 4) }
  function LowNibble(b: bv8): bv8 { b & 0xF }
  function HighNibble(b: bv8): bv8 { (b >> 4) & 0xF }

  lemma {:induction false} NibblesInverse(lo: bv8, hi: bv8)
    requires lo < 16 && hi < 16
    ensures LowNibble(Nibbles(lo, hi)) == lo && HighNibble(Nibbles(lo, hi)) == hi
  {
  }

  lemma {:induction false} NibblesOf(b: bv8)
    ensures LowNibble(b) < 16 && HighNibble(b) < 16 && Nibbles(LowNibble(b), HighNibble(b)) == b
  {
  }

  lemma {:induction false} NibblesValue(lo: bv8, hi: bv8)
    requires lo < 16 && hi < 16
    ensures Nibbles(lo, hi) as int == lo as int + 16 * hi as int
  {
  }

  lemma {:induction false} DigitHexChar(d: bv8)
    requires d < 16
    ensures Digit(HexChar(d)) == d && IsHexDigit(HexChar(d)) && HexChar(d) != NUL
  {
  }

  lemma {:induction false} HexCharDigit(c: char)
    ensures HexChar(Digit(c)) == LowerChar(c) <==> IsHexDigit(c)
  {
  }

  // ---------------------------------------------------------------- the codec on values

  // The macro BYTE_IN_STR.
  function BytesFor(n: nat): nat { (n + 1) / 2 }

  // Digit m of s, counted from the right; 0 beyond its end.
  function DigitFromRight(s: string, m: nat): (d: bv8)
    ensures d < 16
  {
    if m < |s| then Digit(s[|s| - 1 - m]) else 0
  }

  function Encode(s: string): seq<bv8> {
    seq(BytesFor(|s|), k requires 0 <= k < BytesFor(|s|) =>
      Nibbles(DigitFromRight(s, 2 * k), DigitFromRight(s, 2 * k + 1)))
  }

  // Nibble m of b, the least significant first.
  function NibbleAt(b: seq<bv8>, m: nat): bv8
    requires m < 2 * |b|
  {
    if m % 2 == 0 then LowNibble(b[m / 2]) else HighNibble(b[m / 2])
  }

  lemma {:induction false} Halves(k: nat)
    ensures (2 * k) / 2 == k == (2 * k + 1) / 2 && (2 * k) % 2 == 0 && (2 * k + 1) % 2 == 1
  {
  }

  lemma {:induction false} NibblesAt(b: seq<bv8>, k: nat)
    requires k < |b|
    ensures NibbleAt(b, 2 * k) == LowNibble(b[k]) && NibbleAt(b, 2 * k + 1) == HighNibble(b[k])
  {
    Halves(k);
  }

  lemma {:induction false} NibbleSmall(b: seq<bv8>, m: nat)
    requires m < 2 * |b|
    ensures NibbleAt(b, m) < 16
  {
    NibblesOf(b[m / 2]);
  }

  function CharAt(b: seq<bv8>, m: nat): char
    requires m < 2 * |b|
  {
    NibbleSmall(b, m);
    HexChar(NibbleAt(b, m))
  }

  function Decode(b: seq<bv8>): string {
    seq(2 * |b|, j requires 0 <= j < 2 * |b| => CharAt(b, 2 * |b| - 1 - j))
  }

  function Padded(s: string): string {
    if |s| % 2 == 1 then "0" + s else s
  }

  /** Decoding an encoded string gives it back in lower case, padded on the left to even
      length, exactly when it is a hexadecimal numeral. */
  lemma {:induction false} DecodeEncode(s: string)
    ensures Decode(Encode(s)) == Padded(Lower(s)) <==> AllHex(s)
  {
    var t, want := Decode(Encode(s)), Padded(Lower(s));
    assert |t| == |want|;
    if AllHex(s) {
      forall j | 0 <= j < |t| ensures t[j] == want[j] { DecodeEncodeAt(s, j); }
    } else {
      var i :| 0 <= i < |s| && !IsHexDigit(s[i]);
      DecodeEncodeAt(s, |t| - |s| + i);
      HexCharDigit(s[i]);
    }
  }

  lemma {:induction false} DecodeEncodeAt(s: string, j: nat)
    requires j < 2 * BytesFor(|s|) == |Decode(Encode(s))| == |Padded(Lower(s))|
    ensures Decode(Encode(s))[j] == Padded(Lower(s))[j] <==> j < Pad(|s|) || IsHexDigit(s[j - Pad(|s|)])
  {
    PaddedAt(Lower(s), j);
    DecodedAt(s, j);
    if j >= Pad(|s|) {
      HexCharDigit(s[j - Pad(|s|)]);
    }
  }

  lemma {:induction false} DecodedAt(s: string, j: nat)
    requires j < 2 * BytesFor(|s|) == |Decode(Encode(s))|
    ensures Decode(Encode(s))[j] == HexChar(if j < Pad(|s|) then 0 else Digit(s[j - Pad(|s|)]))
  {
    var m := 2 * BytesFor(|s|) - 1 - j;
    EncodedNibble(s, m);
    assert Decode(Encode(s))[j] == CharAt(Encode(s), m);
    assert m == |s| - 1 - (j - Pad(|s|));
  }

  // How many zeros make the length even.
  function Pad(n: nat): nat { 2 * BytesFor(n) - n }

  lemma {:induction false} PaddedAt(s: string, j: nat)
    requires j < 2 * BytesFor(|s|)
    ensures |Padded(s)| == 2 * BytesFor(|s|)
    ensures Padded(s)[j] == if j < Pad(|s|) then '0' else s[j - Pad(|s|)]
  {
  }

  lemma {:induction false} EncodedNibble(s: string, m: nat)
    requires m < 2 * BytesFor(|s|)
    ensures NibbleAt(Encode(s), m) == DigitFromRight(s, m)
  {
    var k := m / 2;
    assert m == 2 * k || m == 2 * k + 1;
    NibblesAt(Encode(s), k);
    NibblesInverse(DigitFromRight(s, 2 * k), DigitFromRight(s, 2 * k + 1));
  }

  /** Encoding a decoded byte string gives the bytes back. */
  lemma {:induction false} EncodeDecode(b: seq<bv8>)
    ensures Encode(Decode(b)) == b
  {
    forall k | 0 <= k < |b| ensures Encode(Decode(b))[k] == b[k] {
      DecodedDigit(b, 2 * k);
      DecodedDigit(b, 2 * k + 1);
      NibblesAt(b, k);
      NibblesOf(b[k]);
    }
  }

  lemma {:induction false} DecodedDigit(b: seq<bv8>, m: nat)
    requires m < 2 * |b|
    ensures DigitFromRight(Decode(b), m) == NibbleAt(b, m)
  {
    NibbleSmall(b, m);
    assert Decode(b)[2 * |b| - 1 - m] == CharAt(b, m);
    DigitHexChar(NibbleAt(b, m));
  }

  // What the bytes denote, least significant first.
  function LittleEndian(b: seq<bv8>): nat {
    if b == [] then 0 else b[0] as int + 256 * LittleEndian(b[1..])
  }

  // What the numeral denotes.
  function Numeral(s: string): nat {
    if s == [] then 0 else 16 * Numeral(s[..|s|-1]) + Digit(s[|s|-1]) as int
  }

  /** The bytes have the numeral's value. */
  lemma {:induction false} EncodeValue(s: string)
    ensures LittleEndian(Encode(s)) == Numeral(s)
    decreases |s|
  {
    var n := |s|;
    var b := Encode(s);
    if n == 1 {
      NibblesValue(Digit(s[0]), 0);
      assert b[1..] == [];
      assert s[..0] == [];
    } else if n > 1 {
      var rest := s[..n-2];
      EncodeValue(rest);
      EncodeRest(s);
      NibblesValue(Digit(s[n-1]), Digit(s[n-2]));
      assert s[..n-1][..n-2] == rest;
    }
  }

  lemma {:induction false} EncodeRest(s: string)
    requires |s| > 1
    ensures Encode(s) == [Nibbles(Digit(s[|s|-1]), Digit(s[|s|-2]))] + Encode(s[..|s|-2])
  {
    var rest := s[..|s|-2];
    assert BytesFor(|s|) == 1 + BytesFor(|rest|);
    forall k | 0 <= k < BytesFor(|rest|) ensures Encode(s)[k + 1] == Encode(rest)[k] {
      ShiftDigit(s, 2 * k);
      ShiftDigit(s, 2 * k + 1);
    }
  }

  lemma {:induction false} ShiftDigit(s: string, m: nat)
    requires |s| > 1
    ensures DigitFromRight(s, m + 2) == DigitFromRight(s[..|s|-2], m)
  {
  }

  // ---------------------------------------------------------------- the value, by the characters

  predicate IsLowerHex(c: char) {
    '0' <= c <= '9' || 'a' <= c <= 'f'
  }

  predicate AllLowerHex(s: string) {
    forall i :: 0 <= i < |s| ==> IsLowerHex(s[i])
  }

  /** s comes before t in the order of the characters. */
  ghost predicate Before(s: string, t: string) {
    exists i :: 0 <= i < |s| && i < |t| && s[..i] == t[..i] && s[i] < t[i]
  }

  lemma {:induction false} DigitOrder(c: char, d: char)
    requires IsLowerHex(c) && IsLowerHex(d)
    ensures c < d <==> Digit(c) as int < Digit(d) as int
    ensures c == d <==> Digit(c) as int == Digit(d) as int
  {
    DigitInt(c);
    DigitInt(d);
  }

  // The value of a digit, by its place in the character table.
  lemma {:induction false} DigitInt(c: char)
    requires IsLowerHex(c)
    ensures Digit(c) as int == if c <= '9' then c as int - '0' as int else c as int - 'a' as int + 10
  {
  }

  // The digits of a string as numbers.
  ghost function DigitsOf(s: string): seq<nat> {
    seq(|s|, i requires 0 <= i < |s| => Digit(s[i]) as int)
  }

  lemma {:induction false} DigitsSmall(s: string)
    ensures forall i :: 0 <= i < |s| ==> DigitsOf(s)[i] < 16
  {
  }

  ghost function ValueOf(ds: seq<nat>): nat {
    if ds == [] then 0 else 16 * ValueOf(ds[..|ds|-1]) + ds[|ds|-1]
  }

  lemma {:induction false} NumeralIsValue(s: string)
    ensures Numeral(s) == ValueOf(DigitsOf(s))
  {
    if s != [] {
      NumeralIsValue(s[..|s|-1]);
      assert DigitsOf(s)[..|s|-1] == DigitsOf(s[..|s|-1]);
    }
  }

  // The first digit in which ds and es differ is smaller in ds.
  ghost predicate Precedes(ds: seq<nat>, es: seq<nat>) {
    exists i :: 0 <= i < |ds| && i < |es| && ds[..i] == es[..i] && ds[i] < es[i]
  }

  lemma {:induction false} PrecedesLast(ds: seq<nat>, es: seq<nat>)
    requires |ds| == |es| > 0
    ensures var n := |ds| - 1; Precedes(ds, es) <==> Precedes(ds[..n], es[..n]) || (ds[..n] == es[..n] && ds[n] < es[n])
  {
    var n := |ds| - 1;
    var ds', es' := ds[..n], es[..n];
    if Precedes(ds', es') {
      var i :| 0 <= i < |ds'| && i < |es'| && ds'[..i] == es'[..i] && ds'[i] < es'[i];
      assert ds[..i] == ds'[..i] && es[..i] == es'[..i];
      assert Precedes(ds, es);
    }
    if Precedes(ds, es) {
      var i :| 0 <= i < |ds| && i < |es| && ds[..i] == es[..i] && ds[i] < es[i];
      if i < n {
        assert ds'[..i] == ds[..i] && es'[..i] == es[..i];
        assert Precedes(ds', es');
      }
    }
  }

  lemma {:induction false} ValueOrder(ds: seq<nat>, es: seq<nat>)
    requires |ds| == |es| && forall i :: 0 <= i < |ds| ==> ds[i] < 16 && es[i] < 16
    ensures Precedes(ds, es) <==> ValueOf(ds) < ValueOf(es)
    ensures ds == es <==> ValueOf(ds) == ValueOf(es)
    decreases |ds|
  {
    if ds != [] {
      var n := |ds| - 1;
      ValueOrder(ds[..n], es[..n]);
      PrecedesLast(ds, es);
      assert ds == ds[..n] + [ds[n]] && es == es[..n] + [es[n]];
    }
  }

  // The order of the characters is the order of the digits.
  lemma {:induction false} BeforeIsPrecedes(s: string, t: string)
    requires |s| == |t| && AllLowerHex(s) && AllLowerHex(t)
    ensures Before(s, t) <==> Precedes(DigitsOf(s), DigitsOf(t))
    ensures s == t <==> DigitsOf(s) == DigitsOf(t)
  {
    var ds, es := DigitsOf(s), DigitsOf(t);
    forall i | 0 <= i < |s| ensures (s[i] < t[i] <==> ds[i] < es[i]) && (s[i] == t[i] <==> ds[i] == es[i]) {
      DigitOrder(s[i], t[i]);
    }
    SameOrder(s, t, ds, es);
  }

  lemma {:induction false} SameOrder(s: string, t: string, ds: seq<nat>, es: seq<nat>)
    requires |s| == |t| == |ds| == |es|
    requires forall i :: 0 <= i < |s| ==> (s[i] < t[i] <==> ds[i] < es[i]) && (s[i] == t[i] <==> ds[i] == es[i])
    ensures Before(s, t) <==> Precedes(ds, es)
    ensures s == t <==> ds == es
  {
    forall i | 0 <= i <= |s| ensures s[..i] == t[..i] <==> ds[..i] == es[..i] { SamePrefix(s, t, ds, es, i); }
    assert s[..|s|] == s && t[..|s|] == t && ds[..|s|] == ds && es[..|s|] == es;
  }

  lemma {:induction false} SamePrefix(s: string, t: string, ds: seq<nat>, es: seq<nat>, i: nat)
    requires |s| == |t| == |ds| == |es| && i <= |s| && forall j :: 0 <= j < |s| ==> (s[j] == t[j] <==> ds[j] == es[j])
    ensures s[..i] == t[..i] <==> ds[..i] == es[..i]
  {
    if s[..i] == t[..i] {
      forall j | 0 <= j < i ensures ds[j] == es[j] { assert s[..i][j] == t[..i][j]; }
    }
    if ds[..i] == es[..i] {
      forall j | 0 <= j < i ensures s[j] == t[j] { assert ds[..i][j] == es[..i][j]; }
    }
  }

  /** Of two lower-case numerals of the same length, the one whose characters come first has
      the smaller bytes, read least significant first, and different numerals have different
      ones. */
  lemma {:induction false} EncodeOrder(s: string, t: string)
    requires |s| == |t| && AllLowerHex(s) && AllLowerHex(t)
    ensures Before(s, t) <==> LittleEndian(Encode(s)) < LittleEndian(Encode(t))
    ensures s == t <==> LittleEndian(Encode(s)) == LittleEndian(Encode(t))
  {
    EncodeValue(s);
    EncodeValue(t);
    NumeralIsValue(s);
    NumeralIsValue(t);
    BeforeIsPrecedes(s, t);
    DigitsSmall(s);
    DigitsSmall(t);
    ValueOrder(DigitsOf(s), DigitsOf(t));
  }

  function Power16(n: nat): nat {
    if n == 0 then 1 else 16 * Power16(n - 1)
  }

  function Repeat(c: char, n: nat): string {
    seq(n, _ => c)
  }

  /** All zeros denote 0, and n times f the largest number of n digits: with the order above,
      the n-digit numerals denote exactly the numbers below 16 to the n, in order. */
  lemma {:induction false} EncodeExtremes(n: nat)
    ensures LittleEndian(Encode(Repeat('0', n))) == 0
    ensures LittleEndian(Encode(Repeat('f', n))) == Power16(n) - 1
  {
    EncodeValue(Repeat('0', n));
    EncodeValue(Repeat('f', n));
    NumeralExtremes(n);
  }

  lemma {:induction false} NumeralExtremes(n: nat)
    ensures Numeral(Repeat('0', n)) == 0 && Numeral(Repeat('f', n)) == Power16(n) - 1
  {
    if n > 0 {
      NumeralExtremes(n - 1);
      assert Repeat('0', n)[..n-1] == Repeat('0', n - 1);
      assert Repeat('f', n)[..n-1] == Repeat('f', n - 1);
    }
  }

  // A character that is no hexadecimal digit counts as '0'.
  function Cleaned(s: string): string {
    seq(|s|, i requires 0 <= i < |s| => if IsHexDigit(s[i]) then s[i] else '0')
  }

  /** Neither the case of the digits nor what stands in place of a digit matters. */
  lemma {:induction false} EncodeIgnores(s: string)
    ensures Encode(Lower(s)) == Encode(s) && Encode(Cleaned(s)) == Encode(s)
  {
    forall m: nat
      ensures DigitFromRight(Lower(s), m) == DigitFromRight(s, m) == DigitFromRight(Cleaned(s), m)
    {
      if m < |s| { DigitIgnores(s[|s| - 1 - m]); }
    }
  }

  lemma {:induction false} DigitIgnores(c: char)
    ensures Digit(LowerChar(c)) == Digit(c) == Digit(if IsHexDigit(c) then c else '0')
  {
  }

  // ---------------------------------------------------------------- the codec in place

  // The first i digits, from the right, are packed into out; the rest is as before.
  ghost predicate IsPacked(out: seq<bv8>, before: seq<bv8>, text: string, i: nat) {
    && BytesFor(i) <= |out| == |before| && i <= |text|
    && (forall k :: 0 <= k < i / 2 ==> out[k] == Encode(text)[k])
    && (i % 2 == 1 ==> out[i / 2] == DigitFromRight(text, i - 1))
    && (forall k :: BytesFor(i) <= k < |out| ==> out[k] == before[k])
  }

  lemma {:induction false} PackLow(out: seq<bv8>, before: seq<bv8>, text: string, i: nat)
    requires i < |text| && IsPacked(out, before, text, i) && i % 2 == 0 && i / 2 < |out|
    ensures IsPacked(out[i / 2 := DigitFromRight(text, i)], before, text, i + 1)
  {
    assert (i + 1) / 2 == i / 2;
  }

  lemma {:induction false} PackHigh(out: seq<bv8>, before: seq<bv8>, text: string, i: nat)
    requires i < |text| && IsPacked(out, before, text, i) && i % 2 == 1
    ensures IsPacked(out[i / 2 := Nibbles(out[i / 2], DigitFromRight(text, i))], before, text, i + 1)
  {
    var k := i / 2;
    assert i == 2 * k + 1 && (i + 1) / 2 == k + 1;
    assert Encode(text)[k] == Nibbles(DigitFromRight(text, 2 * k), DigitFromRight(text, 2 * k + 1));
  }

  lemma {:induction false} PackedAll(out: seq<bv8>, before: seq<bv8>, text: string)
    requires IsPacked(out, before, text, |text|)
    ensures |Encode(text)| <= |out| && out == Encode(text) + before[|Encode(text)|..]
  {
    LastByte(text);
  }

  /** Packs the digits of a string of at most 63 characters into bytes. */
  method ConvertStrToHex(instr: array<char>, outbuf: array<bv8>)
    requires NUL in instr[..] && |Text(instr[..])| < 64
    requires BytesFor(|Text(instr[..])|) <= outbuf.Length && Apart(instr, outbuf)
    modifies outbuf
    ensures instr[..] == old(instr[..])
    ensures var text := Text(instr[..]);
      |Encode(text)| <= outbuf.Length && outbuf[..] == Encode(text) + old(outbuf[..])[|Encode(text)|..]
  {
    var n := Length(instr);
    ghost var text := Text(instr[..]);
    var str := Copied(instr, n);
    FlipString(str);
    PackDigits(str, n, outbuf, text);
    assert instr[..] == old(instr[..]);
  }

  // The packing loop, over the flipped copy.
  method PackDigits(str: array<char>, n: nat, outbuf: array<bv8>, ghost text: string)
    requires n <= str.Length && str[..n] == Reversed(text) && BytesFor(|text|) <= outbuf.Length && Apart(str, outbuf)
    modifies outbuf
    ensures |Encode(text)| <= outbuf.Length && outbuf[..] == Encode(text) + old(outbuf[..])[|Encode(text)|..]
  {
    ghost var before := outbuf[..];
    for i := 0 to n
      invariant IsPacked(outbuf[..], before, text, i)
      invariant str[..n] == Reversed(text)
    {
      assert str[i] == str[..n][i];
      PackDigit(str[i], outbuf, before, text, i);
    }
    PackedAll(outbuf[..], before, text);
  }

  // One turn of the packing loop.
  method PackDigit(c: char, outbuf: array<bv8>, ghost before: seq<bv8>, ghost text: string, i: nat)
    requires i < |text| && c == text[|text| - 1 - i] && BytesFor(|text|) <= outbuf.Length
    requires IsPacked(outbuf[..], before, text, i)
    modifies outbuf
    ensures IsPacked(outbuf[..], before, text, i + 1)
  {
    ghost var out := outbuf[..];
    DigitMasked(c);
    if i % 2 == 0 {
      PackLow(out, before, text, i);
      outbuf[i / 2] := Digit(c) & 0xF;
    } else {
      PackHigh(out, before, text, i);
      outbuf[i / 2] := outbuf[i / 2] | ((Digit(c) & 0xF) << 4);
    }
    assert outbuf[..] == out[i / 2 := outbuf[i / 2]];
  }

  lemma {:induction false} DigitMasked(c: char)
    ensures Digit(c) & 0xF == Digit(c)
  {
  }

  // With an odd number of digits the last byte has no high digit.
  lemma {:induction false} LastByte(s: string)
    ensures |s| % 2 == 1 ==> Encode(s)[|s| / 2] == DigitFromRight(s, |s| - 1)
  {
    if |s| % 2 == 1 {
      var lo := DigitFromRight(s, |s| - 1);
      assert Nibbles(lo, 0) == lo;
    }
  }

  // The local copy: 64 characters, zeroed, then the text without its terminator.
  method Copied(instr: array<char>, n: nat) returns (str: array<char>)
    requires n < 64 && n < instr.Length && NUL in instr[..] && n == StrLen(instr[..])
    ensures fresh(str) && str.Length == 64 && NUL in str[..]
    ensures Text(str[..]) == Text(instr[..])
  {
    ghost var text := Text(instr[..]);
    StrLenBounds(instr[..]);
    assert forall k :: 0 <= k < n ==> text[k] == instr[k];
    str := new char[64](_ => NUL);
    forall k | 0 <= k < n { str[k] := instr[k]; }
    assert instr[..] == old(instr[..]);
    assert str[..][..n] == text;
    StrLenIs(str[..], n);
  }

  /** Writes the bytes as a numeral. With no bytes, the text that was there is reversed. */
  method ConvertHexToStr(inbuf: array<bv8>, outstr: array<char>, cnt: nat)
    requires cnt <= inbuf.Length && 2 * cnt < outstr.Length && Apart(inbuf, outstr)
    requires cnt == 0 ==> NUL in outstr[..]
    modifies outstr
    ensures NUL in outstr[..]
    ensures Text(outstr[..]) == if cnt == 0 then Reversed(old(Text(outstr[..]))) else Decode(inbuf[..cnt])
    ensures cnt > 0 ==> outstr[2*cnt..] == [NUL] + old(outstr[..])[2*cnt+1..]
  {
    ghost var b := inbuf[..cnt];
    for i := 0 to cnt
      invariant outstr[..2 * i] == CharsOf(b, 2 * i)
      invariant i > 0 ==> outstr[2 * i] == NUL
      invariant i == 0 ==> outstr[..] == old(outstr[..])
      invariant forall k :: 2 * i < k < outstr.Length ==> outstr[k] == old(outstr[k])
      invariant inbuf[..cnt] == b
    {
      ghost var done := outstr[..2 * i];
      NibblesOf(inbuf[i]);
      NibblesAt(b, i);
      assert b[i] == inbuf[i];
      outstr[2 * i] := HexChar(inbuf[i] & 0xF);
      outstr[2 * i + 1] := NUL;
      outstr[2 * i + 1] := HexChar((inbuf[i] >> 4) & 0xF);
      outstr[2 * i + 2] := NUL;
      assert outstr[..2 * i] == done;
      assert outstr[..2 * (i + 1)] == done + [outstr[2 * i], outstr[2 * i + 1]];
      CharsOfNext(b, i);
    }
    if cnt > 0 {
      NoNul(b, CharsOf(b, 2 * cnt));
      assert outstr[..][..2 * cnt] == outstr[..2 * cnt];
      StrLenIs(outstr[..], 2 * cnt);
      assert Reversed(CharsOf(b, 2 * cnt)) == Decode(b);
      assert outstr[2*cnt..] == [NUL] + old(outstr[..])[2*cnt+1..];
    }
    FlipString(outstr);
  }

  // The digits in the order in which they are written.
  ghost function CharsOf(b: seq<bv8>, n: nat): string
    requires n <= 2 * |b|
  {
    seq(n, m requires 0 <= m < n => CharAt(b, m))
  }

  lemma {:induction false} CharsOfNext(b: seq<bv8>, i: nat)
    requires i < |b|
    ensures CharsOf(b, 2 * (i + 1)) == CharsOf(b, 2 * i) + [CharAt(b, 2 * i), CharAt(b, 2 * i + 1)]
  {
  }

  lemma {:induction false} NoNul(b: seq<bv8>, digits: string)
    requires |digits| == 2 * |b| && forall m :: 0 <= m < |digits| ==> digits[m] == CharAt(b, m)
    ensures NUL !in digits
  {
    forall m | 0 <= m < |digits| ensures digits[m] != NUL {
      NibbleSmall(b, m);
      DigitHexChar(NibbleAt(b, m));
    }
  }

  /** The digits and their terminator fit the 64 characters of the output exactly for strings
      of at most 62 characters: the 63rd that the input buffer admits is one too many. */
  lemma {:induction false} OutputFits(n: nat)
    ensures 2 * BytesFor(n) < 64 <==> n <= 62
  {
  }

  /** The program, on any line its input buffer admits. `stack` is the memory from the output
      buffer on, its 64 characters and what lies behind them, as it is found. A line of 1 to
      62 characters is converted to bytes and back inside the buffers; one of 63 is too, but
      the terminator lands behind the output buffer; for an empty one, what the memory
      happened to hold is reversed. */
  method Convert(instr: array<char>, stack: seq<char>) returns (bytes: seq<bv8>, text: string, after: seq<char>)
    requires NUL in instr[..] && |Text(instr[..])| <= 63
    requires 2 * BytesFor(|Text(instr[..])|) < |stack| && 64 <= |stack| && (Text(instr[..]) == [] ==> NUL in stack)
    ensures LittleEndian(bytes) == Numeral(Text(instr[..])) && |after| == |stack|
    ensures Text(instr[..]) != [] ==>
      Encode(text) == bytes && (text == Padded(Lower(Text(instr[..]))) <==> AllHex(Text(instr[..])))
    ensures Text(instr[..]) == [] ==> bytes == [] && text == Reversed(Text(stack))
    ensures 1 <= |Text(instr[..])| <= 62 ==> after[64..] == stack[64..]
    ensures |Text(instr[..])| == 63 ==> after[64] == NUL && after[65..] == stack[65..]
  {
    ghost var given := Text(instr[..]);
    var buf := new bv8[64];
    var outstr := new char[|stack|](i requires 0 <= i < |stack| => stack[i]);
    assert outstr[..] == stack;
    ConvertStrToHex(instr, buf);
    var n := Length(instr);
    var cnt := BytesFor(n);
    bytes := buf[..cnt];
    ConvertHexToStr(buf, outstr, cnt);
    var len := Length(outstr);
    text, after := outstr[..len], outstr[..];
    ConvertMeans(given, bytes);
    if cnt > 0 {
      BehindBuffer(stack, after, cnt);
    }
  }

  lemma {:induction false} ConvertMeans(given: string, bytes: seq<bv8>)
    requires bytes == Encode(given)
    ensures LittleEndian(bytes) == Numeral(given) && Encode(Decode(bytes)) == bytes
    ensures Decode(bytes) == Padded(Lower(given)) <==> AllHex(given)
  {
    EncodeValue(given);
    DecodeEncode(given);
    EncodeDecode(bytes);
  }

  // What the terminator of 2 * cnt digits leaves behind the 64 characters.
  lemma {:induction false} BehindBuffer(stack: seq<char>, after: seq<char>, cnt: nat)
    requires 64 <= |stack| == |after| && 2 * cnt < |stack| && cnt <= 32
    requires after[2*cnt..] == [NUL] + stack[2*cnt+1..]
    ensures cnt < 32 ==> after[64..] == stack[64..]
    ensures cnt == 32 ==> after[64] == NUL && after[65..] == stack[65..]
  {
    forall k | 2 * cnt < k < |stack| ensures after[k] == stack[k] {
      assert after[2*cnt..][k - 2*cnt] == ([NUL] + stack[2*cnt+1..])[k - 2*cnt];
    }
    assert after[2*cnt..][0] == NUL;
  }
}
