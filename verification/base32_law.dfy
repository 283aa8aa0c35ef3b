/**
 * Base32 in plain arithmetic (section 6 of RFC 4648): a text and a byte string
 * are numbers, most significant digit first, and encoding and decoding are a
 * change of base.  Nothing here speaks of bits or groups.
 */
module Base32Law {
  import opened Wrappers
  import opened Totp

  /** The byte string as a big-endian number. */
  function ByteNumber(bytes: seq<Byte>): nat {
    if |bytes| == 0 then 0 else 256 * ByteNumber(bytes[..|bytes| - 1]) + bytes[|bytes| - 1] as nat
  }

  /** The place of a letter in "A" to "Z", "2" to "7". */
  function Digit(c: char): nat {
    if 'A' <= c <= 'Z' then c as nat - 'A' as nat else if '2' <= c <= '7' then 26 + c as nat - '2' as nat else 0
  }

  /** The text as a big-endian number in base 32. */
  function TextNumber(text: string): nat {
    if |text| == 0 then 0 else 32 * TextNumber(text[..|text| - 1]) + Digit(text[|text| - 1])
  }

  // ----- powers of two --------------------------------------------------------

  lemma {:induction false} Pow2Adds(a: nat, b: nat)
    ensures Pow2(a + b) == Pow2(a) * Pow2(b)
  {
    if a > 0 { Pow2Adds(a - 1, b); }
  }

  lemma SmallPowers()
    ensures Pow2(5) == 32 && Pow2(8) == 256
  {
    Pow2Of5();
  }

  // ----- bits as numbers ------------------------------------------------------

  lemma ValueAppend(bits: seq<Bit>, d: Bit)
    ensures Value(bits + [d]) == 2 * Value(bits) + d
  {
    assert (bits + [d])[..|bits|] == bits;
  }

  lemma Shifted(v: int, p: int, w: int, d: int)
    ensures 2 * (v * p + w) + d == v * (2 * p) + (2 * w + d)
  {
  }

  lemma {:induction false} ValueConcat(a: seq<Bit>, b: seq<Bit>)
    ensures Value(a + b) == Value(a) * Pow2(|b|) + Value(b)
  {
    if |b| == 0 {
      assert a + b == a;
    } else {
      var front, last := b[..|b| - 1], b[|b| - 1];
      assert a + b == (a + front) + [last] && b == front + [last];
      ValueConcat(a, front);
      ValueAppend(a + front, last);
      ValueAppend(front, last);
      Shifted(Value(a), Pow2(|front|), Value(front), last);
    }
  }

  lemma {:induction false} ZerosAreNothing(n: nat)
    ensures Value(Zeros(n)) == 0
  {
    if n > 0 {
      assert Zeros(n)[..n - 1] == Zeros(n - 1);
      ZerosAreNothing(n - 1);
    }
  }

  lemma PaddedValue(bits: seq<Bit>, n: nat)
    ensures Value(bits + Zeros(n)) == Value(bits) * Pow2(n)
  {
    ValueConcat(bits, Zeros(n));
    ZerosAreNothing(n);
  }

  lemma AppendDigit(bits: seq<Bit>, n: nat, width: nat)
    requires n < Pow2(width)
    ensures Value(bits + Binary(n, width)) == Value(bits) * Pow2(width) + n
  {
    ValueConcat(bits, Binary(n, width));
    ValueOfBinary(n, width);
  }

  lemma {:induction false} BytesValue(input: seq<Byte>)
    ensures Value(BitsOfBytes(input)) == ByteNumber(input)
  {
    if |input| > 0 {
      BytesValue(input[..|input| - 1]);
      SmallPowers();
      AppendDigit(BitsOfBytes(input[..|input| - 1]), input[|input| - 1] as nat, 8);
    }
  }

  lemma DigitIsIndex(c: char)
    requires InAlphabet(c)
    ensures IndexOf(c) == Digit(c) && Digit(c) < 32
  {
  }

  lemma {:induction false} LettersValue(text: string)
    requires forall c <- text :: InAlphabet(c)
    ensures |BitsOfLetters(text)| == 5 * |text| && Value(BitsOfLetters(text)) == TextNumber(text)
  {
    if |text| > 0 {
      var front, last := text[..|text| - 1], text[|text| - 1];
      assert (forall c <- front :: c in text) && last in text;
      LettersValue(front);
      SmallPowers();
      DigitIsIndex(last);
      AppendDigit(BitsOfLetters(front), Digit(last), 5);
    }
  }

  // ----- encoding -------------------------------------------------------------

  /** How many bits the last letter holds beyond the input. */
  function Spare(n: nat): nat { 5 * ((8 * n + 4) / 5) - 8 * n }

  lemma SpareIsPadding(n: nat)
    ensures Padding(8 * n) == Spare(n)
  {
  }

  /**
   * The text of a byte string, read as a base-32 number, is the byte string read
   * as a base-256 number, shifted up to whole letters; and it has exactly as many
   * letters as that takes.
   */
  lemma EncodingIsChangeOfBase(input: seq<Byte>)
    ensures |Encoded(input)| == (8 * |input| + 4) / 5
    ensures TextNumber(Encoded(input)) == ByteNumber(input) * Pow2(5 * |Encoded(input)| - 8 * |input|)
  {
    var bits := BitsOfBytes(input);
    Base32RoundTrip(input);
    BitsOfBytesLength(input);
    LettersHoldBits(bits, 0);
    assert bits[0..] == bits;
    SpareIsPadding(|input|);
    LettersValue(Encoded(input));
    PaddedValue(bits, Spare(|input|));
    BytesValue(input);
  }

  // ----- decoding -------------------------------------------------------------

  /** The bits of the whole octets. */
  function Whole(n: nat): nat { n / 8 * 8 }

  lemma {:induction false} OctetsAppend(bits: seq<Bit>, index: nat)
    requires index <= |bits| && (|bits| - index) % 8 == 0 && index % 8 == 0
    ensures BitsOfBytes(Octets(bits, index)) == bits[index..] && |Octets(bits, index)| == (|bits| - index) / 8
    decreases |bits| - index
  {
    if index == |bits| {
      assert Octets(bits, index) == [];
    } else {
      var octet := bits[index..index + 8];
      OctetsAppend(bits, index + 8);
      OctetBits(octet);
      BytesConcat([Octet(octet)], Octets(bits, index + 8));
      assert bits[index..] == octet + bits[index + 8..];
    }
  }

  lemma OctetBits(octet: seq<Bit>)
    requires |octet| == 8
    ensures BitsOfBytes([Octet(octet)]) == octet
  {
    BinaryOfValue(octet);
    assert [Octet(octet)][..0] == [];
  }

  lemma {:induction false} BytesConcat(a: seq<Byte>, b: seq<Byte>)
    ensures BitsOfBytes(a + b) == BitsOfBytes(a) + BitsOfBytes(b)
  {
    if |b| == 0 {
      assert a + b == a;
    } else {
      BytesConcat(a, b[..|b| - 1]);
      assert (a + b)[..|a + b| - 1] == a + b[..|b| - 1];
    }
  }

  /** Bits left over at the end do not matter. */
  lemma {:induction false} OctetsOfWhole(bits: seq<Bit>, index: nat)
    requires index <= Whole(|bits|) && index % 8 == 0
    ensures Octets(bits, index) == Octets(bits[..Whole(|bits|)], index)
    decreases |bits| - index
  {
    var whole := bits[..Whole(|bits|)];
    if index < Whole(|bits|) {
      assert index + 8 <= Whole(|bits|) <= |bits|;
      OctetsOfWhole(bits, index + 8);
      SliceOfFront(bits, Whole(|bits|), index, index + 8);
    }
  }

  lemma SliceOfFront(bits: seq<Bit>, n: nat, i: nat, j: nat)
    requires i <= j <= n <= |bits|
    ensures bits[..n][i..j] == bits[i..j]
  {
  }

  lemma AtLeastOnce(a: int, d: int)
    requires a >= 1 && d >= 0
    ensures a * d >= d
  {
  }

  lemma Quotient(x: nat, q: nat, r: nat, d: nat)
    requires x == q * d + r && r < d
    ensures x / d == q
  {
    var k := x / d;
    assert x == k * d + x % d;
    assert (k - q) * d == k * d - q * d;
    if k > q { AtLeastOnce(k - q, d); }
    if k < q {
      assert (q - k) * d == q * d - k * d;
      AtLeastOnce(q - k, d);
    }
  }

  /** The front of the bits is the number without its last digits. */
  lemma FrontValue(bits: seq<Bit>, n: nat)
    requires n <= |bits|
    ensures Value(bits[..n]) == Value(bits) / Pow2(|bits| - n)
  {
    assert bits == bits[..n] + bits[n..];
    ValueConcat(bits[..n], bits[n..]);
    Quotient(Value(bits), Value(bits[..n]), Value(bits[n..]), Pow2(|bits| - n));
  }

  lemma WholeOctets(bits: seq<Bit>)
    ensures BitsOfBytes(Octets(bits, 0)) == bits[..Whole(|bits|)] && |Octets(bits, 0)| == |bits| / 8
  {
    var whole := bits[..Whole(|bits|)];
    OctetsOfWhole(bits, 0);
    OctetsAppend(whole, 0);
    assert whole[0..] == whole;
  }

  /**
   * Decoding any text: of its letters, read as a base-32 number, the bits beyond
   * the last whole octet are dropped, and the rest is the bytes, read as a
   * base-256 number.
   */
  lemma DecodingIsChangeOfBase(text: string)
    ensures |Decoded(text)| == 5 * |Clean(text)| / 8
    ensures ByteNumber(Decoded(text)) == TextNumber(Clean(text)) / Pow2(5 * |Clean(text)| - 8 * |Decoded(text)|)
  {
    var bits := BitsOfLetters(Clean(text));
    CleanIsInAlphabet(text);
    LettersValue(Clean(text));
    WholeOctets(bits);
    BytesValue(Decoded(text));
    FrontValue(bits, Whole(|bits|));
  }

  // ----- which characters are letters -----------------------------------------

  lemma {:induction false} CleanConcat(a: string, b: string)
    ensures Clean(a + b) == Clean(a) + Clean(b)
  {
    if |b| == 0 {
      assert a + b == a;
    } else {
      CleanConcat(a, b[..|b| - 1]);
      assert (a + b)[..|a + b| - 1] == a + b[..|b| - 1];
    }
  }

  lemma CleanOne(c: char)
    ensures Clean([c]) == if InAlphabet(Upper(c)) then [Upper(c)] else ""
  {
    assert [c][..0] == "";
  }

  /** A character stands for a letter of the alphabet, in either case, or for nothing. */
  function Meant(c: char): string {
    if 'A' <= c <= 'Z' || '2' <= c <= '7' then [c] else if 'a' <= c <= 'z' then [(c as int - 32) as char] else ""
  }

  /** The letters of a text are those its characters stand for, in their order. */
  lemma LettersOfText(before: string, c: char, after: string)
    ensures Clean("") == "" && Clean(before + [c] + after) == Clean(before) + Meant(c) + Clean(after)
  {
    CleanConcat(before + [c], after);
    CleanConcat(before, [c]);
    CleanOne(c);
  }
}
