/**
 * The hash that turns a service name into a byte, from which the starting
 * port of the name's candidate window is derived. The source computes it on
 * a signed 32-bit `int`; here the accumulator is a `bv32`, which has the same
 * bit pattern, and whose addition and multiplication are modulo 2^32.
 */
module NameHasher {

  import CodeUnits

  /** One UTF-16 code unit: what a C# `char` holds. */
  type CodeUnit = bv16

  /** The UTF-16 encoding of one character: itself, or a surrogate pair above U+FFFF. */
  function CodeUnitsOf(c: char): (u: seq<CodeUnit>)
    ensures |u| == 1 <==> c as int < 0x1_0000
    ensures |u| == 1 || |u| == 2
  {
    if c as int < 0x1_0000 then [CodeUnits.ToCodeUnit(c as int)]
    else
      var v := c as int - 0x1_0000;
      [CodeUnits.ToCodeUnit(0xD800 + v / 0x400), CodeUnits.ToCodeUnit(0xDC00 + v % 0x400)]
  }

  /**
   * The code units of a character decode back to it: below U+10000 the one
   * unit is the character itself; above, a high surrogate (0xD800-0xDBFF)
   * carries the upper ten bits of the offset from U+10000 and a low surrogate
   * (0xDC00-0xDFFF) the lower ten.
   */
  lemma CodeUnitsDecode(c: char)
    ensures |CodeUnitsOf(c)| == 1 ==> CodeUnitsOf(c)[0] as int == c as int
    ensures |CodeUnitsOf(c)| == 2 ==>
              var u := CodeUnitsOf(c);
              && 0xD800 <= u[0] as int < 0xDC00
              && 0xDC00 <= u[1] as int < 0xE000
              && 0x1_0000 + (u[0] as int - 0xD800) * 0x400 + (u[1] as int - 0xDC00) == c as int
  {
  }

  /** The code units a C# string holds for `s`; `foreach (char c in str)` visits these. */
  function Utf16(s: string): seq<CodeUnit>
  {
    if s == [] then [] else CodeUnitsOf(s[0]) + Utf16(s[1..])
  }

  /** The initial value of the accumulator. */
  const HashSeed: bv32 := 5381

  /**
   * Reference definition: the accumulator after folding `h := h * 33 + c`
   * (modulo 2^32) over `units` from the left, starting at 5381.
   */
  function Accumulator(units: seq<CodeUnit>): bv32
  {
    if units == [] then HashSeed
    else Step(Accumulator(units[..|units| - 1]), units[|units| - 1])
  }

  /** One step of the rolling hash, modulo 2^32. */
  function Step(h: bv32, c: CodeUnit): bv32
  {
    h * 33 + c as bv32
  }

  /** Reference definition: the XOR of the four bytes of `h`. */
  function XorOfBytes(h: bv32): (b: bv32)
    ensures b < 256
  {
    (h & 0xff) ^ ((h >> 8) & 0xff) ^ ((h >> 16) & 0xff) ^ ((h >> 24) & 0xff)
  }

  /** The hash of a service name: the byte-fold of its accumulator. */
  function StringHash(s: string): (h: nat)
    ensures h < 256
  {
    XorOfBytes(Accumulator(Utf16(s))) as int
  }

  /** C#'s `>>` on a signed 32-bit `int`: the vacated high bits copy the sign bit. */
  function ArithmeticShiftRight(h: bv32, k: bv32): bv32
    requires k < 32
  {
    if h & 0x8000_0000 == 0 then h >> k else (h >> k) | !(0xFFFF_FFFF >> k)
  }

  /** `(h << 5) + h` is `h * 33` modulo 2^32. */
  lemma ShiftAddIsTimes33(h: bv32)
    ensures (h << 5) + h == h * 33
  {
  }

  /** The loop body of the source, `((hash << 5) + hash) + c`: one step of the rolling hash. */
  function ShiftAdd(hash: bv32, c: CodeUnit): (next: bv32)
    ensures next == Step(hash, c)
  {
    var x := c as bv32;
    var y := (hash << 5) + hash;
    ShiftAddIsTimes33(hash);
    assert y + x == hash * 33 + x;
    y + x
  }

  /** Shifting in sign bits from the left does not reach the low byte when the shift is 8 to 24. */
  lemma ArithmeticShiftLowByte(h: bv32, k: bv32)
    requires 8 <= k <= 24
    ensures ArithmeticShiftRight(h, k) & 0xff == (h >> k) & 0xff
  {
  }

  /**
   * The final fold of the source, `(hash ^ (hash >> 8) ^ (hash >> 16) ^ (hash >> 24)) & 0xff`
   * with arithmetic shifts: the mask makes it the XOR of the four bytes.
   */
  function FoldToByte(hash: bv32): (b: bv32)
    ensures b == XorOfBytes(hash)
  {
    ArithmeticShiftLowByte(hash, 8);
    ArithmeticShiftLowByte(hash, 16);
    ArithmeticShiftLowByte(hash, 24);
    (hash ^ ArithmeticShiftRight(hash, 8) ^ ArithmeticShiftRight(hash, 16) ^ ArithmeticShiftRight(hash, 24)) & 0xff
  }

  /** The accumulator over a prefix one code unit longer is one more step. */
  lemma AccumulatorStep(units: seq<CodeUnit>, i: nat)
    requires i < |units|
    ensures Accumulator(units[..i + 1]) == Step(Accumulator(units[..i]), units[i])
  {
    var prefix := units[..i + 1];
    assert prefix[..i] == units[..i] && prefix[i] == units[i];
  }

  /** `GetStringHash`: the rolling hash over the code units, folded to one byte. */
  method GetStringHash(str: string) returns (h: nat)
    ensures h < 256
    ensures h == StringHash(str)
  {
    var units := Utf16(str);
    var hash: bv32 := HashSeed;
    for i := 0 to |units|
      invariant hash == Accumulator(units[..i])
    {
      AccumulatorStep(units, i);
      hash := ShiftAdd(hash, units[i]);
    }
    assert units[..|units|] == units;
    hash := FoldToByte(hash);
    h := hash as int;
  }

  /** The empty name hashes to 0x05 ^ 0x15 = 16, the two bytes of 5381 = 0x1505. */
  lemma EmptyNameHash()
    ensures StringHash("") == 16
  {
  }

  /** The code units of a concatenation are the code units of its parts, one after the other. */
  lemma {:induction false} Utf16Append(s: string, t: string)
    ensures Utf16(s + t) == Utf16(s) + Utf16(t)
  {
    if s != [] {
      assert (s + t)[1..] == s[1..] + t;
      Utf16Append(s[1..], t);
    } else {
      assert s + t == t;
    }
  }

  /** For names made of characters up to U+FFFF, each character contributes its own code unit. */
  lemma {:induction false} Utf16OfBasicPlane(s: string)
    requires forall i :: 0 <= i < |s| ==> s[i] as int < 0x1_0000
    ensures |Utf16(s)| == |s|
    ensures forall i :: 0 <= i < |s| ==> Utf16(s)[i] as int == s[i] as int
  {
    if s != [] {
      Utf16OfBasicPlane(s[1..]);
      CodeUnitsDecode(s[0]);
      assert forall i :: 1 <= i < |s| ==> Utf16(s)[i] == Utf16(s[1..])[i - 1];
    }
  }
}
