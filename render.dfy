/**
  Model of the diagnostic renderers of src/hash_table.c: `bit_at` (one bit of
  a buffer, most significant bit of each byte first), `bin` (bits as ASCII
  '0'/'1') and `hex` (bytes as two lowercase hexadecimal digits).

  The C code reads the buffer as plain `char` values. The model takes
  `char` to be signed, as with gcc and clang on x86, so a byte of 0x80 or
  more is read as a negative number, and `>>` on a negative `int` shifts
  arithmetically (it rounds toward minus infinity). The model states this
  explicitly with CharValue and Shr. Where `char` is unsigned, `hex`
  renders HexString for every byte, and `bit_at` is the same either way
  (BitAtMsbFirst).
 */
module Render {

  import opened HashTable

  // ---------------------------------------------------------------------
  // C integer semantics of a byte read through a signed `char`
  // ---------------------------------------------------------------------

  /** The value of a byte read through a signed `char`: the two's complement
      reading of its eight bits. */
  function CharValue(b: Byte): (v: int)
    ensures -128 <= v < 128
    ensures v % 256 == b as int
  {
    if b < 0x80 then b as int else b as int - 256
  }

  function Pow2(k: nat): (p: nat)
    ensures p > 0
  {
    if k == 0 then 1 else 2 * Pow2(k - 1)
  }

  /** `v >> k` on an `int`: k halvings, each rounding toward minus infinity. */
  function Shr(v: int, k: nat): int {
    if k == 0 then v else Shr(v, k - 1) / 2
  }

  /** Bit k of a byte, counted from the least significant bit, taken from
      its unsigned value. */
  function Bit(b: Byte, k: nat): int {
    Shr(b as int, k) % 2
  }

  /** Shifting right by k ≤ 8 commutes with subtracting 256, up to the
      shifted-out part: the sign extension of a negative `char` never
      reaches the low 8 - k bits. */
  lemma {:induction false} ShrMinus256(v: int, k: nat)
    requires k <= 8
    ensures Shr(v - 256, k) == Shr(v, k) - Pow2(8 - k)
  {
    if k > 0 {
      ShrMinus256(v, k - 1);
      assert Pow2(8 - (k - 1)) == 2 * Pow2(8 - k);
    }
  }

  // ---------------------------------------------------------------------
  // bit_at
  // ---------------------------------------------------------------------

  /** `bit_at(s, i)`: byte `i >> 3` read as a signed `char`, shifted right by
      `7 - (i & 7)`, and masked with 1. */
  function BitAt(s: seq<Byte>, i: nat): (r: int)
    requires i / 8 < |s|
    ensures r == 0 || r == 1
  {
    Shr(CharValue(s[i / 8]), 7 - i % 8) % 2
  }

  /** The sign of `char` does not matter to `bit_at`: it returns bit
      `7 - i mod 8` of the unsigned byte `i / 8`, so bits are numbered from
      the most significant bit of each byte. */
  lemma BitAtMsbFirst(s: seq<Byte>, i: nat)
    requires i / 8 < |s|
    ensures BitAt(s, i) == Bit(s[i / 8], 7 - i % 8)
  {
    var b, k := s[i / 8], 7 - i % 8;
    if b >= 0x80 {
      ShrMinus256(b as int, k);
      assert Pow2(8 - k) == 2 * Pow2(7 - k);
    }
  }

  /** Reading a string of '0'/'1' digits, most significant first. */
  function ReadBin(cs: seq<char>): int {
    if cs == [] then 0 else 2 * ReadBin(cs[..|cs| - 1]) + (if cs[|cs| - 1] == '1' then 1 else 0)
  }

  // ---------------------------------------------------------------------
  // bin
  // ---------------------------------------------------------------------

  /** The character `bin` writes for a bit. */
  function BinChar(bit: int): char {
    if bit != 0 then '1' else '0'
  }

  /** The characters `bin(dest, s, bits)` writes before its terminator. */
  function BinString(s: seq<Byte>, bits: nat): (r: seq<char>)
    requires bits <= 8 * |s|
    ensures |r| == bits
  {
    if bits == 0 then [] else BinString(s, bits - 1) + [BinChar(BitAt(s, bits - 1))]
  }

  /** The first m characters of a byte's rendering, read back as a
      number: the top m bits of the byte. */
  lemma {:induction false} ReadByteBin(b: Byte, m: nat)
    requires m <= 8
    ensures ReadBin(ByteBin(b)[..m]) == Shr(b as int, 8 - m)
  {
    var v, w := b as int, ByteBin(b);
    if m > 0 {
      var t := w[..m - 1];
      ReadByteBin(b, m - 1);
      assert w[..m] == t + [w[m - 1]];
      ReadBinSnoc(t, w[m - 1]);
      ShrHalf(v, 8 - m);
    } else {
      ShrByte(v, 0);
    }
  }

  /** Appending a digit doubles the value read back and adds the digit. */
  lemma ReadBinSnoc(t: seq<char>, c: char)
    ensures ReadBin(t + [c]) == 2 * ReadBin(t) + (if c == '1' then 1 else 0)
  {
    assert (t + [c])[..|t|] == t;
  }

  /** Bit k of byte j is `bit_at(s, 8j + 7 - k)`. */
  lemma BitOf(s: seq<Byte>, i: nat, j: nat, k: nat)
    requires j < |s| && k < 8 && i == 8 * j + 7 - k
    ensures BitAt(s, i) == Shr(s[j] as int, k) % 2
  {
    assert i / 8 == j && i % 8 == 7 - k;
    BitAtMsbFirst(s, i);
  }

  lemma ShrHalf(v: int, k: nat)
    ensures Shr(v, k) == 2 * Shr(v, k + 1) + Shr(v, k) % 2
  {
  }

  /** Shifting a byte right by 8 - m leaves a number below 2^m. */
  lemma {:induction false} ShrByte(v: int, m: nat)
    requires 0 <= v < 256 && m <= 8
    ensures 0 <= Shr(v, 8 - m) < Pow2(m)
    decreases 8 - m
  {
    if m < 8 {
      ShrByte(v, m + 1);
    }
  }

  /** Each byte rendered by `bin`, read back as a binary number, is the
      byte: the renderer loses nothing. */
  lemma BinRoundTrip(s: seq<Byte>, j: nat)
    requires j < |s|
    ensures ReadBin(BinString(s, 8 * |s|)[8 * j..8 * j + 8]) == s[j] as int
  {
    BinStringAt(s, j);
    ReadByteBin(s[j], 8);
    assert ByteBin(s[j])[..8] == ByteBin(s[j]);
  }

  /** A shorter rendering is a prefix of a longer one. */
  lemma {:induction false} BinStringPrefix(s: seq<Byte>, m: nat, n: nat)
    requires m <= n <= 8 * |s|
    ensures BinString(s, n)[..m] == BinString(s, m)
    decreases n
  {
    if m < n {
      BinStringPrefix(s, m, n - 1);
      assert BinString(s, n)[..m] == BinString(s, n - 1)[..m];
    }
  }

  /** `bin(dest, src, bits)`: one '0'/'1' per bit, then the terminator;
      nothing past `dest[bits]` changes. */
  method Bin(dest: array<char>, src: seq<Byte>, bits: nat)
    requires bits <= 8 * |src| && bits < dest.Length
    modifies dest
    ensures dest[..bits] == BinString(src, bits)
    ensures dest[bits] == '\0'
    ensures dest[bits + 1..] == old(dest[bits + 1..])
  {
    for i := 0 to bits
      invariant dest[..i] == BinString(src, i)
      invariant forall k :: i <= k < dest.Length ==> dest[k] == old(dest[k])
    {
      dest[i] := if BitAt(src, i) != 0 then '1' else '0';
      assert dest[..i + 1] == dest[..i] + [dest[i]];
    }
    dest[bits] := '\0';
  }

  /** The eight characters `bin` writes for one whole byte. */
  function ByteBin(b: Byte): (r: seq<char>)
    ensures |r| == 8
  {
    seq(8, m requires 0 <= m < 8 => BinChar(Bit(b, 7 - m)))
  }

  /** Rendering a byte digit by digit, most significant bit first. */
  lemma {:induction false} BinStringBits(s: seq<Byte>, j: nat, m: nat)
    requires j < |s| && m <= 8
    ensures BinString(s, 8 * j + m) == BinString(s, 8 * j) + ByteBin(s[j])[..m]
  {
    if m > 0 {
      BinStringBits(s, j, m - 1);
      BitOf(s, 8 * j + m - 1, j, 8 - m);
      assert ByteBin(s[j])[..m] == ByteBin(s[j])[..m - 1] + [ByteBin(s[j])[m - 1]];
    }
  }

  /** `bin` over whole bytes writes byte j as the eight characters at
      positions 8j to 8j + 7, most significant bit first. */
  lemma BinStringAt(s: seq<Byte>, j: nat)
    requires j < |s|
    ensures BinString(s, 8 * |s|)[8 * j..8 * j + 8] == ByteBin(s[j])
  {
    BinStringBits(s, j, 8);
    BinStringPrefix(s, 8 * j + 8, 8 * |s|);
    assert BinString(s, 8 * |s|)[8 * j..8 * j + 8] == BinString(s, 8 * j + 8)[8 * j..];
  }

  /** Character i of `bin`'s output is '1' exactly when `bit_at(src, i)`
      is set. */
  lemma {:induction false} BinStringChar(s: seq<Byte>, n: nat, i: nat)
    requires i < n <= 8 * |s|
    ensures BinString(s, n)[i] == BinChar(BitAt(s, i))
    ensures BinString(s, n)[i] == '1' <==> BitAt(s, i) == 1
    decreases n
  {
    if i < n - 1 {
      BinStringChar(s, n - 1, i);
    }
  }

  /** Six consecutive groups of eight characters, each known. */
  lemma SixOctets(x: seq<char>, k: nat, a: string, b: string, c: string, d: string, e: string, f: string)
    requires k + 48 <= |x|
    requires x[k..k + 8] == a && x[k + 8..k + 16] == b && x[k + 16..k + 24] == c
    requires x[k + 24..k + 32] == d && x[k + 32..k + 40] == e && x[k + 40..k + 48] == f
    ensures x[k..k + 48] == a + b + c + d + e + f
  {
    assert x[k..k + 48] == x[k..k + 8] + x[k + 8..k + 16] + x[k + 16..k + 24] +
                           x[k + 24..k + 32] + x[k + 32..k + 40] + x[k + 40..k + 48];
  }

  /** Byte j of s, known to render as a, occupies characters 8j to 8j + 7
      of `bin`'s output. */
  lemma BinOctet(s: seq<Byte>, j: nat, b: Byte, a: string)
    requires j < |s| && s[j] == b && ByteBin(b) == a
    ensures BinString(s, 8 * |s|)[8 * j..8 * j + 8] == a
  {
    BinStringAt(s, j);
  }

  // The eight characters of each byte of "Hello world!".

  lemma ByteBinH()
    ensures ByteBin(0x48) == "01001000"
  {
    assert Shr(0x48, 1) == 36 && Shr(0x48, 2) == 18 && Shr(0x48, 3) == 9;
    assert Shr(0x48, 4) == 4 && Shr(0x48, 5) == 2 && Shr(0x48, 6) == 1 && Shr(0x48, 7) == 0;
  }

  lemma ByteBinLowerE()
    ensures ByteBin(0x65) == "01100101"
  {
    assert Shr(0x65, 1) == 50 && Shr(0x65, 2) == 25 && Shr(0x65, 3) == 12;
    assert Shr(0x65, 4) == 6 && Shr(0x65, 5) == 3 && Shr(0x65, 6) == 1 && Shr(0x65, 7) == 0;
  }

  lemma ByteBinLowerL()
    ensures ByteBin(0x6c) == "01101100"
  {
    assert Shr(0x6c, 1) == 54 && Shr(0x6c, 2) == 27 && Shr(0x6c, 3) == 13;
    assert Shr(0x6c, 4) == 6 && Shr(0x6c, 5) == 3 && Shr(0x6c, 6) == 1 && Shr(0x6c, 7) == 0;
  }

  lemma ByteBinLowerO()
    ensures ByteBin(0x6f) == "01101111"
  {
    assert Shr(0x6f, 1) == 55 && Shr(0x6f, 2) == 27 && Shr(0x6f, 3) == 13;
    assert Shr(0x6f, 4) == 6 && Shr(0x6f, 5) == 3 && Shr(0x6f, 6) == 1 && Shr(0x6f, 7) == 0;
  }

  lemma ByteBinSpace()
    ensures ByteBin(0x20) == "00100000"
  {
    assert Shr(0x20, 1) == 16 && Shr(0x20, 2) == 8 && Shr(0x20, 3) == 4;
    assert Shr(0x20, 4) == 2 && Shr(0x20, 5) == 1 && Shr(0x20, 6) == 0 && Shr(0x20, 7) == 0;
  }

  lemma ByteBinLowerW()
    ensures ByteBin(0x77) == "01110111"
  {
    assert Shr(0x77, 1) == 59 && Shr(0x77, 2) == 29 && Shr(0x77, 3) == 14;
    assert Shr(0x77, 4) == 7 && Shr(0x77, 5) == 3 && Shr(0x77, 6) == 1 && Shr(0x77, 7) == 0;
  }

  lemma ByteBinLowerR()
    ensures ByteBin(0x72) == "01110010"
  {
    assert Shr(0x72, 1) == 57 && Shr(0x72, 2) == 28 && Shr(0x72, 3) == 14;
    assert Shr(0x72, 4) == 7 && Shr(0x72, 5) == 3 && Shr(0x72, 6) == 1 && Shr(0x72, 7) == 0;
  }

  lemma ByteBinLowerD()
    ensures ByteBin(0x64) == "01100100"
  {
    assert Shr(0x64, 1) == 50 && Shr(0x64, 2) == 25 && Shr(0x64, 3) == 12;
    assert Shr(0x64, 4) == 6 && Shr(0x64, 5) == 3 && Shr(0x64, 6) == 1 && Shr(0x64, 7) == 0;
  }

  lemma ByteBinBang()
    ensures ByteBin(0x21) == "00100001"
  {
    assert Shr(0x21, 1) == 16 && Shr(0x21, 2) == 8 && Shr(0x21, 3) == 4;
    assert Shr(0x21, 4) == 2 && Shr(0x21, 5) == 1 && Shr(0x21, 6) == 0 && Shr(0x21, 7) == 0;
  }

  /** The first six bytes of the `bin` entry of the test file. */
  lemma BinHello(s: seq<Byte>)
    requires s == [0x48, 0x65, 0x6c, 0x6c, 0x6f, 0x20, 0x77, 0x6f, 0x72, 0x6c, 0x64, 0x21]
    ensures BinString(s, 96)[0..48] ==
      "01001000" + "01100101" + "01101100" + "01101100" + "01101111" + "00100000"
  {
    var x := BinString(s, 96);
    assert x[0..8] == "01001000" by {
      ByteBinH();
      BinOctet(s, 0, 0x48, "01001000");
    }
    assert x[8..16] == "01100101" by {
      ByteBinLowerE();
      BinOctet(s, 1, 0x65, "01100101");
    }
    assert x[16..24] == "01101100" by {
      ByteBinLowerL();
      BinOctet(s, 2, 0x6c, "01101100");
    }
    assert x[24..32] == "01101100" by {
      ByteBinLowerL();
      BinOctet(s, 3, 0x6c, "01101100");
    }
    assert x[32..40] == "01101111" by {
      ByteBinLowerO();
      BinOctet(s, 4, 0x6f, "01101111");
    }
    assert x[40..48] == "00100000" by {
      ByteBinSpace();
      BinOctet(s, 5, 0x20, "00100000");
    }
    SixOctets(x, 0, "01001000", "01100101", "01101100", "01101100", "01101111", "00100000");
  }

  /** The last six bytes of the `bin` entry of the test file. */
  lemma BinWorld(s: seq<Byte>)
    requires s == [0x48, 0x65, 0x6c, 0x6c, 0x6f, 0x20, 0x77, 0x6f, 0x72, 0x6c, 0x64, 0x21]
    ensures BinString(s, 96)[48..96] ==
      "01110111" + "01101111" + "01110010" + "01101100" + "01100100" + "00100001"
  {
    var x := BinString(s, 96);
    assert x[48..56] == "01110111" by {
      ByteBinLowerW();
      BinOctet(s, 6, 0x77, "01110111");
    }
    assert x[56..64] == "01101111" by {
      ByteBinLowerO();
      BinOctet(s, 7, 0x6f, "01101111");
    }
    assert x[64..72] == "01110010" by {
      ByteBinLowerR();
      BinOctet(s, 8, 0x72, "01110010");
    }
    assert x[72..80] == "01101100" by {
      ByteBinLowerL();
      BinOctet(s, 9, 0x6c, "01101100");
    }
    assert x[80..88] == "01100100" by {
      ByteBinLowerD();
      BinOctet(s, 10, 0x64, "01100100");
    }
    assert x[88..96] == "00100001" by {
      ByteBinBang();
      BinOctet(s, 11, 0x21, "00100001");
    }
    SixOctets(x, 48, "01110111", "01101111", "01110010", "01101100", "01100100", "00100001");
  }

  /** The `bin` entry of the test file: the 96 bits of "Hello world!",
      written here byte by byte. */
  lemma BinHelloWorld(s: seq<Byte>)
    requires s == [0x48, 0x65, 0x6c, 0x6c, 0x6f, 0x20, 0x77, 0x6f, 0x72, 0x6c, 0x64, 0x21]
    ensures BinString(s, 96) ==
      ("01001000" + "01100101" + "01101100" + "01101100" + "01101111" + "00100000") +
      ("01110111" + "01101111" + "01110010" + "01101100" + "01100100" + "00100001")
  {
    var x := BinString(s, 96);
    BinHello(s);
    BinWorld(s);
    assert x == x[0..48] + x[48..96];
  }


  // ---------------------------------------------------------------------
  // hex
  // ---------------------------------------------------------------------

  /** The character `hex` writes for a digit value x held in a `char`:
      `x + (x < 10 ? '0' : 'a' - 10)`. */
  function NibbleChar(x: int): char
    requires -8 <= x < 16
  {
    (if x < 10 then x + '0' as int else x + 'a' as int - 10) as char
  }

  /** The two characters `hex` writes for a byte read as v: `v >> 4`, then
      `v & 15`. */
  function HexPair(v: int): seq<char>
    requires -128 <= v < 256
  {
    [NibbleChar(v / 16), NibbleChar(v % 16)]
  }

  /** The characters `hex(dest, s, |s|)` writes before its terminator, each
      byte read as a signed `char` as the source does. */
  function HexSigned(s: seq<Byte>): (r: seq<char>)
    ensures |r| == 2 * |s|
  {
    if s == [] then [] else HexSigned(s[..|s| - 1]) + HexPair(CharValue(s[|s| - 1]))
  }

  /** The evidently intended rendering: each byte read as an unsigned value. */
  function HexString(s: seq<Byte>): (r: seq<char>)
    ensures |r| == 2 * |s|
  {
    if s == [] then [] else HexString(s[..|s| - 1]) + HexPair(s[|s| - 1] as int)
  }

  const HexDigits: string := "0123456789abcdef"

  /** A digit value in 0 .. 15 is written as the lowercase hexadecimal digit
      of that value. */
  lemma NibbleDigit(x: int)
    requires 0 <= x < 16
    ensures NibbleChar(x) == HexDigits[x]
  {
  }

  /** The value of a lowercase hexadecimal digit. */
  function HexValue(c: char): int {
    if '0' <= c <= '9' then c as int - '0' as int else c as int - 'a' as int + 10
  }

  /** The pair `hex` writes for byte j of s, in the corrected rendering. */
  lemma {:induction false} HexStringAt(s: seq<Byte>, j: nat)
    requires j < |s|
    ensures HexString(s)[2 * j] == NibbleChar(s[j] as int / 16)
    ensures HexString(s)[2 * j + 1] == NibbleChar(s[j] as int % 16)
    decreases |s|
  {
    var n := |s| - 1;
    var r := HexString(s[..n]);
    assert HexString(s) == r + HexPair(s[n] as int);
    if j < n {
      HexStringAt(s[..n], j);
      assert s[..n][j] == s[j];
    }
  }

  /** The rendering as written puts the digit pair of byte j, read as a
      signed `char`, at positions 2j and 2j + 1. */
  lemma HexSignedAt(s: seq<Byte>, j: nat)
    requires j < |s|
    ensures HexSigned(s)[2 * j..2 * j + 2] == HexPair(CharValue(s[j]))
  {
    HexSignedDigits(s, j);
  }

  lemma {:induction false} HexSignedDigits(s: seq<Byte>, j: nat)
    requires j < |s|
    ensures HexSigned(s)[2 * j] == HexPair(CharValue(s[j]))[0]
    ensures HexSigned(s)[2 * j + 1] == HexPair(CharValue(s[j]))[1]
    decreases |s|
  {
    var n := |s| - 1;
    assert HexSigned(s) == HexSigned(s[..n]) + HexPair(CharValue(s[n]));
    if j < n {
      HexSignedDigits(s[..n], j);
      assert s[..n][j] == s[j];
    }
  }

  /** The corrected rendering writes only lowercase hexadecimal digits, and
      each pair, read high digit first, gives back its byte. */
  lemma HexRoundTrip(s: seq<Byte>, j: nat)
    requires j < |s|
    ensures HexString(s)[2 * j] in HexDigits && HexString(s)[2 * j + 1] in HexDigits
    ensures 16 * HexValue(HexString(s)[2 * j]) + HexValue(HexString(s)[2 * j + 1]) == s[j] as int
  {
    HexStringAt(s, j);
    var v := s[j] as int;
    NibbleRoundTrip(v / 16);
    NibbleRoundTrip(v % 16);
  }

  lemma NibbleRoundTrip(x: int)
    requires 0 <= x < 16
    ensures NibbleChar(x) in HexDigits && HexValue(NibbleChar(x)) == x
  {
    NibbleDigit(x);
  }

  /** The pair the source writes for a byte agrees with the intended one in
      the low digit always, and in the high digit exactly when the byte is
      below 0x80: a byte of 0x80 or more reads as a negative `char`, and
      its high nibble comes out as one of the characters '(' to '/'. */
  lemma HexSignedPair(b: Byte)
    ensures HexPair(CharValue(b))[1] == HexPair(b as int)[1]
    ensures HexPair(CharValue(b))[0] == HexPair(b as int)[0] <==> b < 0x80
    ensures b >= 0x80 ==> '(' <= HexPair(CharValue(b))[0] <= '/'
  {
    if b >= 0x80 {
      assert CharValue(b) / 16 == b as int / 16 - 16;
    }
  }

  /** At any byte j of any buffer, the rendering as written and the
      corrected one share the low digit, and share the high digit exactly
      when the byte is below 0x80. */
  lemma HexSignedByte(s: seq<Byte>, j: nat)
    requires j < |s|
    ensures HexSigned(s)[2 * j + 1] == HexString(s)[2 * j + 1]
    ensures HexSigned(s)[2 * j] == HexString(s)[2 * j] <==> s[j] < 0x80
  {
    HexSignedDigits(s, j);
    HexStringAt(s, j);
    HexSignedPair(s[j]);
  }

  /** On ASCII input, where every byte is below 0x80, the source's
      rendering is the intended one. */
  lemma {:induction false} HexSignedAscii(s: seq<Byte>)
    requires forall j :: 0 <= j < |s| ==> s[j] < 0x80
    ensures HexSigned(s) == HexString(s)
    decreases |s|
  {
    if s != [] {
      HexSignedAscii(s[..|s| - 1]);
    }
  }

  /** The smallest input on which the source's rendering goes wrong. */
  lemma HexSignedDiverges(s: seq<Byte>)
    requires s == [0x80]
    ensures HexSigned(s) == "(0" && HexString(s) == "80"
  {
    assert s[..0] == [];
  }

  /** One more byte adds its pair of digits to the rendering. */
  lemma HexSignedSnoc(s: seq<Byte>, i: nat)
    requires i < |s|
    ensures HexSigned(s[..i + 1]) == HexSigned(s[..i]) + HexPair(CharValue(s[i]))
  {
    assert s[..i + 1][..i] == s[..i];
  }

  /** `hex(dest, src, bytes)` as written: two characters per byte, high
      nibble first, each byte read as a signed `char`, then the terminator;
      nothing past `dest[2 * bytes]` changes. */
  method Hex(dest: array<char>, src: seq<Byte>, bytes: nat)
    requires bytes <= |src| && 2 * bytes < dest.Length
    modifies dest
    ensures dest[..2 * bytes] == HexSigned(src[..bytes])
    ensures dest[2 * bytes] == '\0'
    ensures dest[2 * bytes + 1..] == old(dest[2 * bytes + 1..])
  {
    for i := 0 to bytes
      invariant dest[..2 * i] == HexSigned(src[..i])
      invariant forall k :: 2 * i <= k < dest.Length ==> dest[k] == old(dest[k])
    {
      var c := CharValue(src[i]);
      var x, y := c / 16, c % 16;
      dest[2 * i] := NibbleChar(x);
      dest[2 * i + 1] := NibbleChar(y);
      HexSignedSnoc(src, i);
      assert dest[..2 * i + 2] == dest[..2 * i] + [dest[2 * i], dest[2 * i + 1]];
    }
    dest[2 * bytes] := '\0';
  }

  /** The first six pairs of the `hex` entry of the test file. */
  lemma HexHello(s: seq<Byte>)
    requires s == [0x48, 0x65, 0x6c, 0x6c, 0x6f, 0x20, 0x77, 0x6f, 0x72, 0x6c, 0x64, 0x21]
    ensures HexString(s)[..12] == "48656c6c6f20"
  {
    HexStringAt(s, 0);
    HexStringAt(s, 1);
    HexStringAt(s, 2);
    HexStringAt(s, 3);
    HexStringAt(s, 4);
    HexStringAt(s, 5);
  }

  /** The last six pairs of the `hex` entry of the test file. */
  lemma HexWorld(s: seq<Byte>)
    requires s == [0x48, 0x65, 0x6c, 0x6c, 0x6f, 0x20, 0x77, 0x6f, 0x72, 0x6c, 0x64, 0x21]
    ensures HexString(s)[12..] == "776f726c6421"
  {
    HexStringAt(s, 6);
    HexStringAt(s, 7);
    HexStringAt(s, 8);
    HexStringAt(s, 9);
    HexStringAt(s, 10);
    HexStringAt(s, 11);
  }

  /** The `hex` entry of the test file: "Hello world!" renders as
      "48656c6c6f20776f726c6421", in the source's reading as in the
      intended one. */
  lemma HexHelloWorld(s: seq<Byte>)
    requires s == [0x48, 0x65, 0x6c, 0x6c, 0x6f, 0x20, 0x77, 0x6f, 0x72, 0x6c, 0x64, 0x21]
    ensures HexString(s) == "48656c6c6f20776f726c6421"
    ensures HexSigned(s) == HexString(s)
  {
    HexHello(s);
    HexWorld(s);
    assert HexString(s) == HexString(s)[..12] + HexString(s)[12..];
    HexSignedAscii(s);
  }
}
