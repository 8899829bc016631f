/**
 Command ids (src/ros_mcp/commands/ulid.py): 48 bits of milliseconds and 80 random bits in Crockford
 base 32 (ULID specification, sections Encoding, Sorting and Binary Layout and Byte Order).
 */
module Ulid {

  const Alphabet := "0123456789ABCDEFGHJKMNPQRSTVWXYZ"

  type Byte = x: nat | x < 256

  function Power(b: nat, e: nat): nat {
    if e == 0 then 1 else b * Power(b, e - 1)
  }

  // ----- bytes, big endian

  function FromBytes(data: seq<Byte>): nat
    decreases |data|
  {
    if |data| == 0 then 0 else FromBytes(data[..|data| - 1]) * 256 + data[|data| - 1]
  }

  function ToBytes(value: nat, n: nat): (data: seq<Byte>)
    ensures |data| == n
    decreases n
  {
    if n == 0 then [] else ToBytes(value / 256, n - 1) + [value % 256]
  }

  // ----- base 32

  /** The `n` low digits, most significant first. */
  function Digits(value: nat, n: nat): (digits: seq<nat>)
    ensures |digits| == n && forall i | 0 <= i < n :: digits[i] < 32
    decreases n
  {
    if n == 0 then [] else Digits(value / 32, n - 1) + [value % 32]
  }

  function Spell(digits: seq<nat>): string
    requires forall i | 0 <= i < |digits| :: digits[i] < 32
  {
    seq(|digits|, i requires 0 <= i < |digits| => Alphabet[digits[i]])
  }

  function IndexIn(s: string, c: char): (i: nat)
    requires c in s
    ensures i < |s| && s[i] == c
  {
    if s[0] == c then 0 else 1 + IndexIn(s[1..], c)
  }

  predicate IsDigit(c: char) { c in Alphabet }

  /** The digit a character stands for. */
  function DigitOf(c: char): nat
    requires IsDigit(c)
  {
    IndexIn(Alphabet, c)
  }

  predicate AllDigits(s: string) { forall i | 0 <= i < |s| :: IsDigit(s[i]) }

  function Decode(s: string): nat
    requires AllDigits(s)
    decreases |s|
  {
    if |s| == 0 then 0 else Decode(s[..|s| - 1]) * 32 + DigitOf(s[|s| - 1])
  }

  function Encode(data: seq<Byte>): string {
    Spell(Digits(FromBytes(data), 26))
  }

  lemma ReversedAppend(chars: string, c: char)
    ensures Reversed(chars + [c]) == [c] + Reversed(chars)
  {}

  function Reversed(s: string): string {
    seq(|s|, i requires 0 <= i < |s| => s[|s| - 1 - i])
  }

  /** The digits below the `n` lowest. */
  function Shifted(value: nat, n: nat): nat
    decreases n
  {
    if n == 0 then value else Shifted(value / 32, n - 1)
  }

  lemma {:induction false} ShiftedOnce(value: nat, n: nat)
    ensures Shifted(value, n) / 32 == Shifted(value, n + 1)
    decreases n
  {
    if n > 0 { ShiftedOnce(value / 32, n - 1); }
  }

  /** One digit more in front. */
  lemma {:induction false} DigitInFront(value: nat, n: nat)
    ensures Digits(value, n + 1) == [Shifted(value, n) % 32] + Digits(value, n)
    decreases n
  {
    if n > 0 {
      DigitInFront(value / 32, n - 1);
    } else {
      assert Digits(value / 32, 0) == [];
    }
  }

  /** `_encode_base32`: divmod 26 times, collecting from the low end, then reverse. */
  method EncodeBase32(data: seq<Byte>) returns (s: string)
    ensures s == Encode(data)
  {
    var value := FromBytes(data);
    ghost var whole := value;
    var chars := "";
    for i := 0 to 26
      invariant value == Shifted(whole, i) && |chars| == i
      invariant Reversed(chars) == Spell(Digits(whole, i))
    {
      var remainder := value % 32;
      value := value / 32;
      ShiftedOnce(whole, i);
      DigitInFront(whole, i);
      ReversedAppend(chars, Alphabet[remainder]);
      chars := chars + [Alphabet[remainder]];
      assert Spell(Digits(whole, i + 1)) == [Alphabet[remainder]] + Spell(Digits(whole, i));
    }
    return Reversed(chars);
  }

  const TimeRange := 0x1_0000_0000_0000

  /** The 48 bits of time that fit. */
  function Time48(ms: nat): (t: nat)
    ensures t < TimeRange && (ms < TimeRange ==> t == ms)
  {
    ms % TimeRange
  }

  /** `new_ulid` for the time and the random bytes it draws. */
  function NewUlid(ms: nat, randomness: seq<Byte>): string {
    Encode(ToBytes(Time48(ms), 6) + randomness)
  }

  // ----- arithmetic

  lemma {:induction false} PowerAdds(b: nat, m: nat, n: nat)
    ensures Power(b, m + n) == Power(b, m) * Power(b, n)
    decreases m
  {
    if m > 0 {
      PowerAdds(b, m - 1, n);
      assert Power(b, m + n) == b * (Power(b, m - 1) * Power(b, n));
      assert b * (Power(b, m - 1) * Power(b, n)) == (b * Power(b, m - 1)) * Power(b, n);
    }
  }

  lemma {:induction false} BytesBound(data: seq<Byte>)
    ensures FromBytes(data) < Power(256, |data|)
    decreases |data|
  {
    if |data| > 0 {
      BytesBound(data[..|data| - 1]);
      assert FromBytes(data[..|data| - 1]) + 1 <= Power(256, |data| - 1);
    }
  }

  lemma {:induction false} BytesConcat(a: seq<Byte>, b: seq<Byte>)
    ensures FromBytes(a + b) == FromBytes(a) * Power(256, |b|) + FromBytes(b)
    decreases |b|
  {
    if |b| == 0 {
      assert a + b == a;
    } else {
      var init := b[..|b| - 1];
      assert (a + b)[..|a + b| - 1] == a + init;
      BytesConcat(a, init);
      Regroup(FromBytes(a), Power(256, |init|), FromBytes(init), b[|b| - 1]);
    }
  }

  lemma Regroup(x: nat, p: nat, y: nat, z: nat)
    ensures (x * p + y) * 256 + z == x * (256 * p) + (y * 256 + z)
  {}

  lemma {:induction false} BytesRoundTrip(value: nat, n: nat)
    requires value < Power(256, n)
    ensures FromBytes(ToBytes(value, n)) == value
    decreases n
  {
    if n > 0 {
      DivideBelow(value, Power(256, n - 1), 256);
      BytesRoundTrip(value / 256, n - 1);
      assert ToBytes(value, n)[..n - 1] == ToBytes(value / 256, n - 1);
    }
  }

  lemma MultipleAbove(b: nat, p: nat, q: nat)
    ensures q >= p ==> b * q >= b * p
  {}

  lemma DivideBelow(value: nat, p: nat, b: nat)
    requires b > 0 && value < b * p
    ensures value / b < p
  {
    MultipleAbove(b, p, value / b);
    assert value >= b * (value / b);
  }

  /** 16 bytes leave the first of 26 digits below 8: 2^128 == 8 * 32^25. */
  lemma SizeOf128()
    ensures Power(256, 16) == 8 * Power(32, 25) && 8 * Power(32, 25) < Power(32, 26) && Power(256, 6) == TimeRange
  {
    assert Power(256, 2) == 0x1_0000 && Power(256, 4) == 0x1_0000_0000 by {
      PowerAdds(256, 1, 1);
      PowerAdds(256, 2, 2);
    }
    PowerAdds(256, 4, 2);
    PowerAdds(256, 4, 4);
    PowerAdds(256, 8, 8);
    assert Power(32, 5) == 0x200_0000 by { PowerAdds(32, 2, 2); PowerAdds(32, 1, 4); PowerAdds(32, 1, 1); }
    PowerAdds(32, 5, 5);
    PowerAdds(32, 10, 10);
    PowerAdds(32, 20, 5);
  }

  // ----- digits

  lemma {:induction false} FirstDigit(value: nat, n: nat, k: nat)
    requires value < k * Power(32, n)
    ensures Digits(value, n + 1)[0] < k
    decreases n
  {
    if n == 0 {
      assert Digits(value / 32, 0) == [];
      assert Digits(value, 1) == [value % 32];
    } else {
      assert k * Power(32, n) == 32 * (k * Power(32, n - 1));
      DivideBelow(value, k * Power(32, n - 1), 32);
      FirstDigit(value / 32, n - 1, k);
    }
  }

  ghost predicate DigitsLess(a: seq<nat>, b: seq<nat>) {
    exists k :: 0 <= k < |a| && k < |b| && a[..k] == b[..k] && a[k] < b[k]
  }

  /** The order of Python strings of one length. */
  ghost predicate StringLess(a: string, b: string) {
    exists k :: 0 <= k < |a| && k < |b| && a[..k] == b[..k] && a[k] < b[k]
  }

  /** The smaller number has the smaller digits. */
  lemma {:induction false} DigitsOrdered(x: nat, y: nat, n: nat)
    requires x < y < Power(32, n)
    ensures DigitsLess(Digits(x, n), Digits(y, n))
    decreases n
  {
    if n > 0 {
      var a, b := Digits(x, n), Digits(y, n);
      var p, q := Digits(x / 32, n - 1), Digits(y / 32, n - 1);
      assert a[..n - 1] == p && b[..n - 1] == q;
      if x / 32 == y / 32 {
        assert a[..n - 1] == b[..n - 1] && a[n - 1] < b[n - 1];
      } else {
        DivideBelow(y, Power(32, n - 1), 32);
        DigitsOrdered(x / 32, y / 32, n - 1);
        var k :| 0 <= k < |p| && k < |q| && p[..k] == q[..k] && p[k] < q[k];
        assert a[..k] == p[..k] && b[..k] == q[..k];
      }
    }
  }

  // ----- the alphabet

  /** The alphabet is in ascending order. */
  lemma {:induction false} AlphabetAscends(i: nat, j: nat)
    requires i < j < 32
    ensures Alphabet[i] < Alphabet[j]
    decreases j
  {
    AlphabetSteps(j - 1);
    if i < j - 1 { AlphabetAscends(i, j - 1); }
  }

  lemma AlphabetSteps(i: nat)
    requires i < 31
    ensures Alphabet[i] < Alphabet[i + 1]
  {
    assert |Alphabet| == 32;
    if i < 10 { AlphabetDigits(i); } else { AlphabetLetters(i); }
  }

  lemma AlphabetDigits(i: nat)
    requires i < 10
    ensures Alphabet[i] < Alphabet[i + 1]
  {}

  lemma AlphabetLetters(i: nat)
    requires 10 <= i < 31
    ensures Alphabet[i] < Alphabet[i + 1]
  {}

  lemma AlphabetHas(d: nat)
    requires d < 32
    ensures IsDigit(Alphabet[d]) && DigitOf(Alphabet[d]) == d
  {
    var i := DigitOf(Alphabet[d]);
    if i < d { AlphabetAscends(i, d); }
    if d < i { AlphabetAscends(d, i); }
  }

  /** The value of a Crockford digit by its code: the ten decimal digits, then the capital letters but I, L, O
      and U; none for any other character. */
  function CrockfordValue(c: char): int {
    var code := c as int;
    if 48 <= code <= 57 then code - 48          // 0 to 9
    else if 65 <= code <= 72 then code - 55     // A to H: 10 to 17
    else if 74 <= code <= 75 then code - 56     // J, K: 18, 19
    else if 77 <= code <= 78 then code - 57     // M, N: 20, 21
    else if 80 <= code <= 84 then code - 58     // P to T: 22 to 26
    else if 86 <= code <= 90 then code - 59     // V to Z: 27 to 31
    else -1
  }

  lemma DigitsAreCrockford(c: char)
    ensures IsDigit(c) <==> CrockfordValue(c) >= 0
    ensures IsDigit(c) ==> DigitOf(c) == CrockfordValue(c)
  {
    AlphabetIsCrockford();
    if IsDigit(c) {
      assert CrockfordValue(Alphabet[DigitOf(c)]) == DigitOf(c);
    }
    if CrockfordValue(c) >= 0 {
      assert Alphabet[CrockfordValue(c)] == c;
      AlphabetHas(CrockfordValue(c));
    }
  }

  lemma AlphabetIsCrockford()
    ensures |Alphabet| == 32 && forall d: nat | d < 32 :: CrockfordValue(Alphabet[d]) == d
  {}

  lemma SpellOrdered(a: seq<nat>, b: seq<nat>)
    requires (forall i | 0 <= i < |a| :: a[i] < 32) && (forall i | 0 <= i < |b| :: b[i] < 32)
    requires DigitsLess(a, b)
    ensures StringLess(Spell(a), Spell(b))
  {
    var k :| 0 <= k < |a| && k < |b| && a[..k] == b[..k] && a[k] < b[k];
    forall i | 0 <= i < k ensures Spell(a)[i] == Spell(b)[i] {
      assert a[i] == a[..k][i] == b[..k][i] == b[i];
    }
    assert Spell(a)[..k] == Spell(b)[..k];
    AlphabetAscends(a[k], b[k]);
  }

  lemma PrefixAgrees(a: string, b: string, k: nat)
    requires k <= |a| && k <= |b| && a[..k] == b[..k]
    ensures forall i | 0 <= i < k :: a[i] == b[i]
  {
    forall i | 0 <= i < k ensures a[i] == b[i] { assert a[..k][i] == b[..k][i]; }
  }

  lemma LessIsAsymmetric(a: string, b: string)
    requires StringLess(a, b)
    ensures a != b && !StringLess(b, a)
  {
    var k :| 0 <= k < |a| && k < |b| && a[..k] == b[..k] && a[k] < b[k];
    PrefixAgrees(a, b, k);
    forall j | 0 <= j < |b| && j < |a| && b[..j] == a[..j]
      ensures !(b[j] < a[j])
    {
      PrefixAgrees(a, b, j);
    }
  }

  // ----- the promises

  lemma DecodeAppend(s: string, c: char)
    requires AllDigits(s) && IsDigit(c)
    ensures AllDigits(s + [c]) && Decode(s + [c]) == Decode(s) * 32 + DigitOf(c)
  {
    assert (s + [c])[..|s|] == s;
  }

  lemma SpellAppend(digits: seq<nat>, d: nat)
    requires d < 32 && forall i | 0 <= i < |digits| :: digits[i] < 32
    ensures Spell(digits + [d]) == Spell(digits) + [Alphabet[d]]
  {}

  lemma {:induction false} DecodeSpell(value: nat, n: nat)
    requires value < Power(32, n)
    ensures AllDigits(Spell(Digits(value, n))) && Decode(Spell(Digits(value, n))) == value
    decreases n
  {
    if n > 0 {
      DivideBelow(value, Power(32, n - 1), 32);
      DecodeSpell(value / 32, n - 1);
      SpellAppend(Digits(value / 32, n - 1), value % 32);
      AlphabetHas(value % 32);
      DecodeAppend(Spell(Digits(value / 32, n - 1)), Alphabet[value % 32]);
    }
  }

  lemma LowDigits(d: nat)
    requires d < 8
    ensures Alphabet[d] <= '7'
  {}

  /** For every 16 bytes the text has 26 characters of the alphabet, the first at most '7', and decodes
      to the very number encoded. */
  lemma {:induction false} EncodingRoundTrips(data: seq<Byte>)
    requires |data| == 16
    ensures var s := Encode(data); |s| == 26 && s[0] <= '7' && AllDigits(s) && Decode(s) == FromBytes(data)
  {
    SizeOf128();
    BytesBound(data);
    var value := FromBytes(data);
    DecodeSpell(value, 26);
    FirstDigit(value, 25, 8);
    LowDigits(Digits(value, 26)[0]);
  }

  /** Text order is number order. */
  lemma {:induction false} EncodingKeepsOrder(a: seq<Byte>, b: seq<Byte>)
    requires |a| == 16 && |b| == 16
    ensures StringLess(Encode(a), Encode(b)) <==> FromBytes(a) < FromBytes(b)
    ensures Encode(a) == Encode(b) <==> FromBytes(a) == FromBytes(b)
  {
    SizeOf128();
    BytesBound(a);
    BytesBound(b);
    var x, y := FromBytes(a), FromBytes(b);
    if x < y {
      SmallerEncodesSmaller(x, y);
    } else if y < x {
      SmallerEncodesSmaller(y, x);
    } else if StringLess(Encode(a), Encode(b)) {
      LessIsAsymmetric(Encode(a), Encode(b));
    }
  }

  lemma SmallerEncodesSmaller(x: nat, y: nat)
    requires x < y < Power(32, 26)
    ensures var a, b := Spell(Digits(x, 26)), Spell(Digits(y, 26)); StringLess(a, b) && a != b && !StringLess(b, a)
  {
    DigitsOrdered(x, y, 26);
    SpellOrdered(Digits(x, 26), Digits(y, 26));
    LessIsAsymmetric(Spell(Digits(x, 26)), Spell(Digits(y, 26)));
  }

  /** The layout: the 48 time bits above the random ones. */
  lemma UlidLayout(ms: nat, randomness: seq<Byte>)
    ensures FromBytes(ToBytes(Time48(ms), 6) + randomness) ==
            Time48(ms) * Power(256, |randomness|) + FromBytes(randomness)
  {
    SizeOf128();
    BytesRoundTrip(Time48(ms), 6);
    BytesConcat(ToBytes(Time48(ms), 6), randomness);
  }

  lemma HigherPartWins(x: nat, y: nat, p: nat, u: nat, v: nat)
    requires x < y && u < p
    ensures x * p + u < y * p + v
  {
    assert (x + 1) * p <= y * p;
  }

  lemma NumbersOrdered(earlier: nat, later: nat, r: seq<Byte>, q: seq<Byte>)
    requires earlier < later < TimeRange && |r| == |q|
    ensures FromBytes(ToBytes(Time48(earlier), 6) + r) < FromBytes(ToBytes(Time48(later), 6) + q)
  {
    UlidLayout(earlier, r);
    UlidLayout(later, q);
    BytesBound(r);
    HigherPartWins(earlier, later, Power(256, |r|), FromBytes(r), FromBytes(q));
  }

  /** Ids of a later millisecond (below 2^48) sort strictly after those of an earlier one, whatever the
      random bits. */
  lemma {:induction false} LaterSortsAfter(earlier: nat, later: nat, r: seq<Byte>, q: seq<Byte>)
    requires earlier < later < TimeRange && |r| == 10 && |q| == 10
    ensures StringLess(NewUlid(earlier, r), NewUlid(later, q))
  {
    NumbersOrdered(earlier, later, r, q);
    EncodingKeepsOrder(ToBytes(Time48(earlier), 6) + r, ToBytes(Time48(later), 6) + q);
  }
}
