/**
 Base58 printing of byte strings (apps/indexer/src/decode/poolState.ts, bs58) and its inverse.
 */
module Base58 {
  import opened Arith
  import opened Prelude

  /** The alphabet, in its runs of consecutive characters: no 0, I, O or l. */
  const ALPHABET: string := "123456789" + "ABCDEFGH" + "JKLMN" + "PQRSTUVWXYZ" + "abcdefghijk" + "mnopqrstuvwxyz"

  // ----- numbers in a base, most significant digit first -----

  function FromBase(digits: seq<nat>, base: nat): nat {
    if digits == [] then 0 else FromBase(digits[..|digits| - 1], base) * base + digits[|digits| - 1]
  }

  /** Without leading zeros; nothing at all for 0. */
  function ToBase(n: nat, base: nat): seq<nat>
    requires base >= 2
  {
    if n == 0 then [] else
    Split(n, base);
    ToBase(n / base, base) + [n % base]
  }

  ghost predicate DigitsBelow(digits: seq<nat>, base: nat) {
    forall i :: 0 <= i < |digits| ==> digits[i] < base
  }

  lemma Split(n: nat, base: nat)
    requires base >= 2
    ensures n == (n / base) * base + n % base && 0 <= n % base < base
    ensures n / base == 0 ==> n % base == n
    ensures n > 0 ==> n / base < n
  {
    MulLe(n / base, 2, base);
  }

  lemma FromBaseLast(front: seq<nat>, last: nat, base: nat)
    ensures FromBase(front + [last], base) == FromBase(front, base) * base + last
  {
    assert (front + [last])[..|front|] == front;
  }

  lemma ToBaseStep(n: nat, q: nat, r: nat, base: nat)
    requires base >= 2 && n > 0 && r < base && n == q * base + r && ToBase(n, base) == ToBase(q, base) + [r]
    requires DigitsBelow(ToBase(q, base), base) && FromBase(ToBase(q, base), base) == q
    requires if q > 0 then ToBase(q, base) != [] && ToBase(q, base)[0] > 0 else ToBase(q, base) == []
    ensures DigitsBelow(ToBase(n, base), base) && FromBase(ToBase(n, base), base) == n
    ensures ToBase(n, base)[0] > 0
  {
    FromBaseLast(ToBase(q, base), r, base);
  }

  lemma {:induction false} ToBaseFacts(n: nat, base: nat)
    requires base >= 2
    ensures DigitsBelow(ToBase(n, base), base)
    ensures n > 0 ==> ToBase(n, base) != [] && ToBase(n, base)[0] > 0
    ensures FromBase(ToBase(n, base), base) == n
  {
    if n > 0 {
      Split(n, base);
      ToBaseFacts(n / base, base);
      ToBaseStep(n, n / base, n % base, base);
    }
  }

  lemma {:induction false} FromBaseFacts(digits: seq<nat>, base: nat)
    requires base >= 2 && DigitsBelow(digits, base) && (digits != [] ==> digits[0] > 0)
    ensures ToBase(FromBase(digits, base), base) == digits
  {
    if digits != [] {
      var front, last := digits[..|digits| - 1], digits[|digits| - 1];
      FromBaseFacts(front, base);
      LeadingDigit(digits, base);
      OneMoreDigit(FromBase(front, base), last, base);
      assert digits == front + [last];
    }
  }

  lemma OneMoreDigit(v: nat, last: nat, base: nat)
    requires base >= 2 && last < base && v * base + last > 0
    ensures ToBase(v * base + last, base) == ToBase(v, base) + [last]
  {
    DivUnique(v * base + last, base, v, last);
  }

  lemma {:induction false} LeadingDigit(digits: seq<nat>, base: nat)
    requires base >= 2 && digits != [] && digits[0] > 0
    ensures FromBase(digits, base) > 0
  {
    if |digits| > 1 {
      LeadingDigit(digits[..|digits| - 1], base);
      MulLe(base, 1, FromBase(digits[..|digits| - 1], base));
    }
  }

  // ----- changing base, keeping leading zeros one for one -----

  function LeadingZeros(digits: seq<nat>): (z: nat)
    ensures z <= |digits|
  {
    if digits == [] || digits[0] != 0 then 0 else 1 + LeadingZeros(digits[1..])
  }

  function Zeros(z: nat): seq<nat> {
    seq(z, i => 0)
  }

  function Convert(digits: seq<nat>, from: nat, to: nat): seq<nat>
    requires to >= 2
  {
    Zeros(LeadingZeros(digits)) + ToBase(FromBase(digits, from), to)
  }

  lemma {:induction false} SplitZeros(digits: seq<nat>)
    ensures var z := LeadingZeros(digits);
      digits == Zeros(z) + digits[z..] && (z < |digits| ==> digits[z] != 0)
  {
    if digits != [] && digits[0] == 0 {
      SplitZeros(digits[1..]);
    }
  }

  lemma {:induction false} ZerosAdd(z: nat, digits: seq<nat>, base: nat)
    ensures FromBase(Zeros(z) + digits, base) == FromBase(digits, base)
  {
    if digits != [] {
      ZerosAdd(z, digits[..|digits| - 1], base);
      assert (Zeros(z) + digits)[..z + |digits| - 1] == Zeros(z) + digits[..|digits| - 1];
    } else if z > 0 {
      ZerosAdd(z - 1, [], base);
      assert (Zeros(z) + [])[..z - 1] == Zeros(z - 1) + [];
    }
  }

  lemma {:induction false} CountZeros(z: nat, digits: seq<nat>)
    requires digits != [] ==> digits[0] != 0
    ensures LeadingZeros(Zeros(z) + digits) == z
  {
    if z > 0 {
      CountZeros(z - 1, digits);
      assert (Zeros(z) + digits)[1..] == Zeros(z - 1) + digits;
    } else {
      assert Zeros(0) + digits == digits;
    }
  }

  /** Digits are leading zeros and a number. */
  lemma DigitsAre(digits: seq<nat>, base: nat)
    requires base >= 2 && DigitsBelow(digits, base)
    ensures digits == Zeros(LeadingZeros(digits)) + ToBase(FromBase(digits, base), base)
  {
    var z := LeadingZeros(digits);
    var rest := digits[z..];
    SplitZeros(digits);
    ZerosAdd(z, rest, base);
    FromBaseFacts(rest, base);
  }

  lemma ZerosAndNumber(z: nat, n: nat, base: nat)
    requires base >= 2
    ensures var digits := Zeros(z) + ToBase(n, base);
      DigitsBelow(digits, base) && LeadingZeros(digits) == z && FromBase(digits, base) == n
  {
    ToBaseFacts(n, base);
    ZerosAdd(z, ToBase(n, base), base);
    CountZeros(z, ToBase(n, base));
  }

  /** Changing base and back gives the same digits, leading zeros included. */
  lemma ConvertBack(digits: seq<nat>, from: nat, to: nat)
    requires from >= 2 && to >= 2 && DigitsBelow(digits, from)
    ensures DigitsBelow(Convert(digits, from, to), to)
    ensures Convert(Convert(digits, from, to), to, from) == digits
  {
    DigitsAre(digits, from);
    ZerosAndNumber(LeadingZeros(digits), FromBase(digits, from), to);
  }

  // ----- characters -----

  function CharOf(digit: nat): char
    requires digit < 58
  {
    ALPHABET[digit]
  }

  /** The value of a character of the alphabet: digits and letters without 0, I, O and l. */
  function DigitOf(c: char): Option<nat> {
    var x := c as int;
    if '1' <= c <= '9' then Some(x - '1' as int)
    else if 'A' <= c <= 'H' then Some(x - 'A' as int + 9)
    else if 'J' <= c <= 'N' then Some(x - 'J' as int + 17)
    else if 'P' <= c <= 'Z' then Some(x - 'P' as int + 22)
    else if 'a' <= c <= 'k' then Some(x - 'a' as int + 33)
    else if 'm' <= c <= 'z' then Some(x - 'm' as int + 44)
    else None
  }

  lemma Run1(d: nat)
    requires d < 9
    ensures CharOf(d) as int == '1' as int + d
  {
    var s := "123456789";
    assert CharOf(d) == s[d];
    assert s[0] == '1' && s[1] == '2' && s[2] == '3' && s[3] == '4' && s[4] == '5' && s[5] == '6'
        && s[6] == '7' && s[7] == '8' && s[8] == '9';
  }

  lemma Run2(d: nat)
    requires d < 8
    ensures CharOf(9 + d) as int == 'A' as int + d
  {
    var s := "ABCDEFGH";
    assert CharOf(9 + d) == s[d];
    assert s[0] == 'A' && s[1] == 'B' && s[2] == 'C' && s[3] == 'D' && s[4] == 'E' && s[5] == 'F'
        && s[6] == 'G' && s[7] == 'H';
  }

  lemma Run3(d: nat)
    requires d < 5
    ensures CharOf(17 + d) as int == 'J' as int + d
  {
    var s := "JKLMN";
    assert CharOf(17 + d) == s[d];
    assert s[0] == 'J' && s[1] == 'K' && s[2] == 'L' && s[3] == 'M' && s[4] == 'N';
  }

  lemma Run4(d: nat)
    requires d < 11
    ensures CharOf(22 + d) as int == 'P' as int + d
  {
    var s := "PQRSTUVWXYZ";
    assert CharOf(22 + d) == s[d];
    assert s[0] == 'P' && s[1] == 'Q' && s[2] == 'R' && s[3] == 'S' && s[4] == 'T' && s[5] == 'U'
        && s[6] == 'V' && s[7] == 'W' && s[8] == 'X' && s[9] == 'Y' && s[10] == 'Z';
  }

  lemma Run5(d: nat)
    requires d < 11
    ensures CharOf(33 + d) as int == 'a' as int + d
  {
    var s := "abcdefghijk";
    assert CharOf(33 + d) == s[d];
    assert s[0] == 'a' && s[1] == 'b' && s[2] == 'c' && s[3] == 'd' && s[4] == 'e' && s[5] == 'f'
        && s[6] == 'g' && s[7] == 'h' && s[8] == 'i' && s[9] == 'j' && s[10] == 'k';
  }

  lemma Run6(d: nat)
    requires d < 14
    ensures CharOf(44 + d) as int == 'm' as int + d
  {
    var s := "mnopqrstuvwxyz";
    assert CharOf(44 + d) == s[d];
    assert s[0] == 'm' && s[1] == 'n' && s[2] == 'o' && s[3] == 'p' && s[4] == 'q' && s[5] == 'r'
        && s[6] == 's' && s[7] == 't' && s[8] == 'u' && s[9] == 'v' && s[10] == 'w' && s[11] == 'x'
        && s[12] == 'y' && s[13] == 'z';
  }

  /** Code of the character printed for a digit. */
  function CodeOf(d: nat): nat {
    if d < 9 then '1' as int + d
    else if d < 17 then 'A' as int + d - 9
    else if d < 22 then 'J' as int + d - 17
    else if d < 33 then 'P' as int + d - 22
    else if d < 44 then 'a' as int + d - 33
    else 'm' as int + d - 44
  }

  lemma AlphabetCode(d: nat)
    requires d < 58
    ensures CharOf(d) as int == CodeOf(d)
  {
    if d < 9 {
      Run1(d);
    } else if d < 17 {
      Run2(d - 9);
    } else if d < 22 {
      Run3(d - 17);
    } else if d < 33 {
      Run4(d - 22);
    } else if d < 44 {
      Run5(d - 33);
    } else {
      Run6(d - 44);
    }
  }

  lemma AlphabetDigit(d: nat)
    requires d < 58
    ensures DigitOf(CharOf(d)) == Some(d)
  {
    AlphabetCode(d);
  }

  lemma AlphabetChar(c: char)
    requires DigitOf(c).Some?
    ensures DigitOf(c).value < 58 && CharOf(DigitOf(c).value) == c
  {
    AlphabetCode(DigitOf(c).value);
  }

  /** The alphabet is the digits and letters in ascending order, without the four that are easily confused. */
  lemma AlphabetIs(c: char)
    ensures (exists d :: 0 <= d < 58 && CharOf(d) == c) <==>
      (('0' <= c <= '9' || 'A' <= c <= 'Z' || 'a' <= c <= 'z') && c !in {'0', 'I', 'O', 'l'})
    ensures forall d, e :: 0 <= d < e < 58 ==> CharOf(d) < CharOf(e)
  {
    if DigitOf(c).Some? {
      AlphabetChar(c);
    }
    forall d | 0 <= d < 58 ensures CharOf(d) as int == CodeOf(d) {
      AlphabetCode(d);
    }
  }

  function Print(digits: seq<nat>): string
    requires forall i :: 0 <= i < |digits| ==> digits[i] < 58
  {
    seq(|digits|, i requires 0 <= i < |digits| => CharOf(digits[i]))
  }

  /** `None` when some character is not in the alphabet. */
  function Read(text: string): (r: Option<seq<nat>>)
    ensures r.Some? ==> |r.value| == |text|
    ensures r.Some? ==> forall i :: 0 <= i < |text| ==> DigitOf(text[i]) == Some(r.value[i])
    ensures r.None? ==> exists i :: 0 <= i < |text| && DigitOf(text[i]).None?
  {
    if text == [] then Some([]) else
    var front, last := Read(text[..|text| - 1]), DigitOf(text[|text| - 1]);
    if front.None? then
      None
    else if last.None? then None else Some(front.value + [last.value])
  }

  // ----- the printer and its inverse -----

  type Bytes = bs: seq<nat> | forall i :: 0 <= i < |bs| ==> bs[i] < 256

  function Encode(bytes: Bytes): string {
    ConvertBack(bytes, 256, 58);
    Print(Convert(bytes, 256, 58))
  }

  function Decode(text: string): (r: Option<Bytes>) {
    var digits := Read(text);
    if digits.None? then None else
    ReadBelow(text);
    ConvertBack(digits.value, 58, 256);
    Some(Convert(digits.value, 58, 256))
  }

  lemma ReadBelow(text: string)
    requires Read(text).Some?
    ensures forall i :: 0 <= i < |text| ==> Read(text).value[i] < 58 && CharOf(Read(text).value[i]) == text[i]
  {
    forall i | 0 <= i < |text| ensures Read(text).value[i] < 58 && CharOf(Read(text).value[i]) == text[i] {
      AlphabetChar(text[i]);
    }
  }

  lemma ReadPrint(digits: seq<nat>)
    requires forall i :: 0 <= i < |digits| ==> digits[i] < 58
    ensures Read(Print(digits)) == Some(digits)
  {
    var text := Print(digits);
    forall i | 0 <= i < |text| ensures DigitOf(text[i]) == Some(digits[i]) {
      AlphabetDigit(digits[i]);
    }
    assert Read(text).Some?;
    assert Read(text).value == digits;
  }

  /** Every byte string can be read back from its printed form, leading zero bytes included. */
  lemma DecodeEncode(bytes: Bytes)
    ensures Decode(Encode(bytes)) == Some(bytes)
  {
    ConvertBack(bytes, 256, 58);
    ReadPrint(Convert(bytes, 256, 58));
  }

  /** Every text over the alphabet is the printed form of exactly the bytes it reads as. */
  lemma EncodeDecode(text: string)
    ensures Decode(text).Some? ==> Encode(Decode(text).value) == text
    ensures Decode(text).Some? <==> forall i :: 0 <= i < |text| ==> DigitOf(text[i]).Some?
  {
    if Read(text).Some? {
      ReadBelow(text);
      var digits := Read(text).value;
      ConvertBack(digits, 58, 256);
      assert Print(digits) == text;
    }
  }

  // ----- the loops -----

  lemma {:induction false} PrintAppend(digits: seq<nat>, d: nat)
    requires d < 58 && forall i :: 0 <= i < |digits| ==> digits[i] < 58
    ensures Print(digits + [d]) == Print(digits) + [CharOf(d)]
  {}

  lemma ValueAppend(bytes: seq<nat>, i: nat)
    requires i < |bytes|
    ensures FromBase(bytes[..i + 1], 256) == FromBase(bytes[..i], 256) * 256 + bytes[i]
  {
    assert bytes[..i + 1][..i] == bytes[..i];
  }

  method BigEndian(bytes: Bytes) returns (n: nat)
    ensures n == FromBase(bytes, 256)
  {
    n := 0;
    for i := 0 to |bytes|
      invariant n == FromBase(bytes[..i], 256)
    {
      ValueAppend(bytes, i);
      n := n * 256 + bytes[i];
    }
    assert bytes[..|bytes|] == bytes;
  }

  lemma PrintStep(n: nat)
    requires n > 0
    ensures DigitsBelow(ToBase(n, 58), 58) && DigitsBelow(ToBase(n / 58, 58), 58) && n / 58 < n
    ensures Print(ToBase(n, 58)) == Print(ToBase(n / 58, 58)) + [ALPHABET[n % 58]]
  {
    Split(n, 58);
    ToBaseFacts(n, 58);
    ToBaseFacts(n / 58, 58);
    PrintAppend(ToBase(n / 58, 58), n % 58);
  }

  method PrintNumber(value: nat) returns (out: string)
    ensures DigitsBelow(ToBase(value, 58), 58) && out == Print(ToBase(value, 58))
  {
    var n := value;
    ToBaseFacts(value, 58);
    out := "";
    while n > 0
      invariant DigitsBelow(ToBase(n, 58), 58)
      invariant Print(ToBase(n, 58)) + out == Print(ToBase(value, 58))
      decreases n
    {
      PrintStep(n);
      assert Print(ToBase(n / 58, 58)) + ([ALPHABET[n % 58]] + out) == Print(ToBase(n, 58)) + out;
      out := [ALPHABET[n % 58]] + out;
      n := n / 58;
    }
  }

  lemma OneMoreZero(z: nat, digits: string)
    ensures Print(Zeros(z + 1)) + digits == "1" + (Print(Zeros(z)) + digits)
  {
    Run1(0);
    assert Print(Zeros(z + 1)) == "1" + Print(Zeros(z));
  }

  lemma EncodeIs(bytes: Bytes)
    ensures DigitsBelow(ToBase(FromBase(bytes, 256), 58), 58)
    ensures Encode(bytes) == Print(Zeros(LeadingZeros(bytes))) + Print(ToBase(FromBase(bytes, 256), 58))
  {
    ConvertBack(bytes, 256, 58);
    ToBaseFacts(FromBase(bytes, 256), 58);
    PrintConcat(Zeros(LeadingZeros(bytes)), ToBase(FromBase(bytes, 256), 58));
  }

  /** A '1' in front for every leading zero byte. */
  method PrependOnes(bytes: Bytes, digits: string) returns (out: string)
    ensures out == Print(Zeros(LeadingZeros(bytes))) + digits
  {
    out := digits;
    assert bytes[0..] == bytes;
    var i := 0;
    while i < |bytes| && bytes[i] == 0
      invariant 0 <= i <= |bytes|
      invariant i + LeadingZeros(bytes[i..]) == LeadingZeros(bytes)
      invariant out == Print(Zeros(i)) + digits
    {
      assert bytes[i..][1..] == bytes[i + 1..];
      OneMoreZero(i, digits);
      out := "1" + out;
      i := i + 1;
    }
  }

  /** The printer: the number in base 58, after a '1' for every leading zero byte. */
  method Bs58(bytes: Bytes) returns (out: string)
    ensures out == Encode(bytes)
    ensures Decode(out) == Some(bytes)
  {
    var n := BigEndian(bytes);
    var digits := PrintNumber(n);
    out := PrependOnes(bytes, digits);
    EncodeIs(bytes);
    DecodeEncode(bytes);
  }

  lemma PrintConcat(a: seq<nat>, b: seq<nat>)
    requires DigitsBelow(a, 58) && DigitsBelow(b, 58)
    ensures DigitsBelow(a + b, 58) && Print(a + b) == Print(a) + Print(b)
  {}
}
