/**
 * One-time passwords (lib/totp.ts): the Base32 text of a secret (section 6 of
 * RFC 4648, without padding), the search for the time step of a code, and the
 * record of used steps (section 5.2 of RFC 6238).
 */
module Totp {
  import opened Wrappers

  newtype Byte = b: int | 0 <= b < 256

  type Bit = b: nat | b < 2

  // ===== bits =================================================================

  /** `width` binary digits, zero-padded on the left. */
  function Binary(n: nat, width: nat): (bits: seq<Bit>)
    ensures |bits| == width
  {
    if width == 0 then [] else Binary(n / 2, width - 1) + [n % 2]
  }

  function Value(bits: seq<Bit>): (n: nat)
    ensures n < Pow2(|bits|)
  {
    if |bits| == 0 then 0 else 2 * Value(bits[..|bits| - 1]) + bits[|bits| - 1]
  }

  function Zeros(n: nat): seq<Bit> { seq(n, _ => 0) }

  lemma {:induction false} ValueOfBinary(n: nat, width: nat)
    requires n < Pow2(width)
    ensures Value(Binary(n, width)) == n
  {
    if width > 0 {
      ValueOfBinary(n / 2, width - 1);
      var bits := Binary(n, width);
      assert bits[..width - 1] == Binary(n / 2, width - 1);
    }
  }

  lemma {:induction false} BinaryOfValue(bits: seq<Bit>)
    ensures Binary(Value(bits), |bits|) == bits
  {
    if |bits| > 0 { BinaryOfValue(bits[..|bits| - 1]); }
  }

  // ===== Base32 ===============================================================

  const BASE32_ALPHABET := "ABCDEFGHIJKLMNOPQRSTUVWXYZ234567"

  function BitsOfBytes(input: seq<Byte>): seq<Bit> {
    if |input| == 0 then [] else BitsOfBytes(input[..|input| - 1]) + Binary(input[|input| - 1] as nat, 8)
  }

  /** The last group is padded with zeros on the right. */
  function Group(bits: seq<Bit>, index: nat): seq<Bit>
    requires index < |bits|
  {
    if index + 5 <= |bits| then bits[index..index + 5] else bits[index..] + Zeros(index + 5 - |bits|)
  }

  lemma Pow2Of5()
    ensures Pow2(5) == 32 && Pow2(8) == 256
  {
    assert Pow2(3) == 8;
    assert Pow2(5) == 2 * Pow2(4);
    assert Pow2(8) == 2 * Pow2(7) && Pow2(7) == 2 * Pow2(6) && Pow2(6) == 2 * Pow2(5);
  }

  predicate InAlphabet(c: char) { 'A' <= c <= 'Z' || '2' <= c <= '7' }

  function LetterAt(v: nat): (c: char)
    requires v < 32
    ensures InAlphabet(c) && IndexOf(c) == v
  {
    BASE32_ALPHABET[v]
  }

  function IndexOf(c: char): (i: int)
    ensures -1 <= i < 32
    ensures i >= 0 <==> InAlphabet(c)
  {
    if 'A' <= c <= 'Z' then c as int - 'A' as int else if '2' <= c <= '7' then c as int - '2' as int + 26 else -1
  }

  function Letter(group: seq<Bit>): char
    requires |group| == 5
  {
    Pow2Of5();
    LetterAt(Value(group))
  }

  function Letters(bits: seq<Bit>, index: nat): string
    decreases |bits| - index
  {
    if index >= |bits| then "" else [Letter(Group(bits, index))] + Letters(bits, index + 5)
  }

  function Encoded(input: seq<Byte>): string { Letters(BitsOfBytes(input), 0) }

  method EncodeBase32(input: seq<Byte>) returns (output: string)
    ensures output == Encoded(input)
  {
    var bits: seq<Bit> := [];
    for k := 0 to |input|
      invariant bits == BitsOfBytes(input[..k])
    {
      assert input[..k + 1][..k] == input[..k];
      bits := bits + Binary(input[k] as nat, 8);
    }
    assert input[..|input|] == input;
    output := SpellBits(bits);
  }

  method SpellBits(bits: seq<Bit>) returns (output: string)
    ensures output == Letters(bits, 0)
  {
    output := "";
    var index := 0;
    ghost var rest := Letters(bits, 0);
    while index < |bits|
      invariant rest == Letters(bits, index) && output + rest == Letters(bits, 0)
    {
      ghost var next := Letters(bits, index + 5);
      assert rest == [Letter(Group(bits, index))] + next;
      output := output + [Letter(Group(bits, index))];
      rest := next;
      index := index + 5;
    }
  }

  function Upper(c: char): char { if 'a' <= c <= 'z' then c - 'a' + 'A' else c }

  function Clean(input: string): string {
    if |input| == 0 then ""
    else Clean(input[..|input| - 1]) + if InAlphabet(Upper(input[|input| - 1])) then [Upper(input[|input| - 1])] else ""
  }

  function BitsOfLetters(clean: string): seq<Bit> {
    if |clean| == 0 then []
    else
      var i := IndexOf(clean[|clean| - 1]);
      BitsOfLetters(clean[..|clean| - 1]) + if i < 0 then [] else Binary(i, 5)
  }

  /** Whole octets only: what is left over at the end is dropped. */
  function Octets(bits: seq<Bit>, index: nat): seq<Byte>
    decreases |bits| - index
  {
    if index + 8 > |bits| then [] else [Octet(bits[index..index + 8])] + Octets(bits, index + 8)
  }

  function Octet(bits: seq<Bit>): Byte
    requires |bits| == 8
  {
    Pow2Of5();
    Value(bits) as Byte
  }

  function Decoded(input: string): seq<Byte> { Octets(BitsOfLetters(Clean(input)), 0) }

  lemma {:induction false} CleanIsInAlphabet(input: string)
    ensures forall c <- Clean(input) :: InAlphabet(c)
  {
    if |input| > 0 { CleanIsInAlphabet(input[..|input| - 1]); }
  }

  /** The error of the source is never raised: the text is reduced to the alphabet first. */
  method DecodeBase32(input: string) returns (r: Result<seq<Byte>, string>)
    ensures r == Ok(Decoded(input))
  {
    var clean := Clean(input);
    CleanIsInAlphabet(input);
    var bits: seq<Bit> := [];
    for k := 0 to |clean|
      invariant bits == BitsOfLetters(clean[..k])
    {
      assert clean[..k + 1][..k] == clean[..k] && clean[k] in clean;
      var index := IndexOf(clean[k]);
      if index < 0 { return Err("Invalid base32 secret"); }
      bits := bits + Binary(index, 5);
    }
    assert clean[..|clean|] == clean;
    var bytes: seq<Byte> := [];
    var index := 0;
    while index + 8 <= |bits|
      invariant bytes + Octets(bits, index) == Decoded(input)
    {
      bytes := bytes + [Octet(bits[index..index + 8])];
      index := index + 8;
    }
    assert Octets(bits, index) == [] && bytes + [] == bytes;
    return Ok(bytes);
  }

  // ----- round trip -----------------------------------------------------------

  lemma LetterIndex(group: seq<Bit>)
    requires |group| == 5
    ensures InAlphabet(Letter(group)) && IndexOf(Letter(group)) == Value(group) && Binary(IndexOf(Letter(group)), 5) == group
  {
    Pow2Of5();
    BinaryOfValue(group);
  }

  lemma {:induction false} BitsOfLettersConcat(a: string, b: string)
    ensures BitsOfLetters(a + b) == BitsOfLetters(a) + BitsOfLetters(b)
  {
    if |b| == 0 {
      assert a + b == a;
    } else {
      BitsOfLettersConcat(a, b[..|b| - 1]);
      assert (a + b)[..|a + b| - 1] == a + b[..|b| - 1];
    }
  }

  function Padding(n: nat): nat { (5 - n % 5) % 5 }

  lemma PaddingRepeats(n: nat)
    ensures Padding(n + 5) == Padding(n)
  {
  }

  lemma OneLetter(group: seq<Bit>)
    requires |group| == 5
    ensures BitsOfLetters([Letter(group)]) == group
  {
    LetterIndex(group);
    assert [Letter(group)][..0] == "";
  }

  lemma LettersStep(bits: seq<Bit>, index: nat)
    requires index < |bits|
    ensures Letters(bits, index) == [Letter(Group(bits, index))] + Letters(bits, index + 5)
    ensures BitsOfLetters(Letters(bits, index)) == Group(bits, index) + BitsOfLetters(Letters(bits, index + 5))
  {
    BitsOfLettersConcat([Letter(Group(bits, index))], Letters(bits, index + 5));
    OneLetter(Group(bits, index));
  }

  /** What the letters from `index` on must spell: the bits left, padded to whole groups. */
  function Padded(bits: seq<Bit>, index: nat): seq<Bit>
    requires index <= |bits|
  {
    bits[index..] + Zeros(Padding(|bits| - index))
  }

  lemma PaddedStep(bits: seq<Bit>, index: nat)
    requires index < |bits|
    ensures Padded(bits, index) == Group(bits, index) + if index + 5 <= |bits| then Padded(bits, index + 5) else []
  {
    if index + 5 <= |bits| {
      PaddingRepeats(|bits| - index - 5);
      assert bits[index..] == bits[index..index + 5] + bits[index + 5..];
    }
  }

  lemma {:induction false} LettersHoldBits(bits: seq<Bit>, index: nat)
    requires index <= |bits|
    ensures BitsOfLetters(Letters(bits, index)) == Padded(bits, index)
    ensures |Letters(bits, index)| == (|bits| - index + 4) / 5
    decreases |bits| - index
  {
    if index == |bits| {
      assert Letters(bits, index) == "";
    } else {
      LettersStep(bits, index);
      PaddedStep(bits, index);
      if index + 5 <= |bits| { LettersHoldBits(bits, index + 5); } else { assert Letters(bits, index + 5) == ""; }
    }
  }

  lemma {:induction false} LettersInAlphabet(bits: seq<Bit>, index: nat)
    ensures forall c <- Letters(bits, index) :: InAlphabet(c)
    decreases |bits| - index
  {
    if index < |bits| {
      LetterIndex(Group(bits, index));
      LettersInAlphabet(bits, index + 5);
    }
  }

  lemma {:induction false} CleanKeepsAlphabet(s: string)
    requires forall c <- s :: InAlphabet(c)
    ensures Clean(s) == s
  {
    if |s| > 0 {
      var front, last := s[..|s| - 1], s[|s| - 1];
      assert forall c <- front :: c in s;
      assert last in s;
      CleanKeepsAlphabet(front);
      AlphabetIsUpper(last);
      assert s == front + [last];
    }
  }

  lemma AlphabetIsUpper(c: char)
    requires InAlphabet(c)
    ensures Upper(c) == c
  {
  }

  lemma {:induction false} BitsOfByte(input: seq<Byte>, k: nat)
    requires k < |input|
    ensures |BitsOfBytes(input)| == 8 * |input| && BitsOfBytes(input)[8 * k..8 * k + 8] == Binary(input[k] as nat, 8)
  {
    var front := input[..|input| - 1];
    BitsOfBytesLength(front);
    if k < |input| - 1 {
      BitsOfByte(front, k);
      assert BitsOfBytes(input)[8 * k..8 * k + 8] == BitsOfBytes(front)[8 * k..8 * k + 8];
    }
  }

  lemma {:induction false} BitsOfBytesLength(input: seq<Byte>)
    ensures |BitsOfBytes(input)| == 8 * |input|
  {
    if |input| > 0 { BitsOfBytesLength(input[..|input| - 1]); }
  }

  lemma OctetAt(input: seq<Byte>, rest: seq<Bit>, k: nat)
    requires k < |input| && |BitsOfBytes(input)| == 8 * |input|
    ensures Octet((BitsOfBytes(input) + rest)[8 * k..8 * k + 8]) == input[k]
  {
    BitsOfByte(input, k);
    Pow2Of5();
    ValueOfBinary(input[k] as nat, 8);
    SliceOfPrefix(BitsOfBytes(input), rest, 8 * k, 8 * k + 8);
  }

  lemma SliceOfPrefix(a: seq<Bit>, b: seq<Bit>, lo: nat, hi: nat)
    requires lo <= hi <= |a|
    ensures (a + b)[lo..hi] == a[lo..hi]
  {
  }

  ghost predicate HoldsAt(bits: seq<Bit>, input: seq<Byte>, k: int) {
    0 <= k < |input| && 8 * k + 8 <= |bits| && Octet(bits[8 * k..8 * k + 8]) == input[k]
  }

  lemma OctetsStep(bits: seq<Bit>, index: nat)
    requires index + 8 <= |bits|
    ensures Octets(bits, index) == [Octet(bits[index..index + 8])] + Octets(bits, index + 8)
  {
  }

  lemma {:induction false} OctetsOfBytes(bits: seq<Bit>, input: seq<Byte>, k: nat)
    requires k <= |input| && |bits| < 8 * |input| + 8
    requires forall i | k <= i < |input| :: HoldsAt(bits, input, i)
    ensures Octets(bits, 8 * k) == input[k..]
    decreases |input| - k
  {
    if k == |input| {
      assert Octets(bits, 8 * k) == [];
    } else {
      assert HoldsAt(bits, input, k);
      OctetsStep(bits, 8 * k);
      OctetsOfBytes(bits, input, k + 1);
      assert input[k..] == [input[k]] + input[k + 1..];
    }
  }

  /** Decoding gives back every byte string, and its text has ceil(8n / 5) letters of the alphabet. */
  lemma Base32RoundTrip(input: seq<Byte>)
    ensures Decoded(Encoded(input)) == input
    ensures |Encoded(input)| == (8 * |input| + 4) / 5 && forall c <- Encoded(input) :: InAlphabet(c)
  {
    DecodingIgnoresLayout(input, Encoded(input));
    LettersInAlphabet(BitsOfBytes(input), 0);
    CleanKeepsAlphabet(Encoded(input));
  }

  /** So does any text that differs from the encoding only in letter case and characters outside the alphabet. */
  lemma DecodingIgnoresLayout(input: seq<Byte>, text: string)
    requires Clean(text) == Clean(Encoded(input))
    ensures Decoded(text) == input && |Encoded(input)| == (8 * |input| + 4) / 5
  {
    var bits := BitsOfBytes(input);
    BitsOfBytesLength(input);
    LettersInAlphabet(bits, 0);
    CleanKeepsAlphabet(Encoded(input));
    LettersHoldBits(bits, 0);
    assert bits[0..] == bits;
    var rest := Zeros(Padding(|bits|));
    forall k | 0 <= k < |input| ensures HoldsAt(bits + rest, input, k) { OctetAt(input, rest, k); }
    OctetsOfBytes(bits + rest, input, 0);
    assert input[0..] == input;
  }

  // ===== the step of a code ===================================================

  const STEP_MS := 30_000

  function StripSpace(s: string): string {
    if |s| == 0 then ""
    else StripSpace(s[..|s| - 1]) + if IsSpace(s[|s| - 1]) then "" else [s[|s| - 1]]
  }

  lemma {:induction false} StripSpaceConcat(a: string, b: string)
    ensures StripSpace(a + b) == StripSpace(a) + StripSpace(b)
  {
    if |b| == 0 {
      assert a + b == a;
    } else {
      StripSpaceConcat(a, b[..|b| - 1]);
      assert (a + b)[..|a + b| - 1] == a + b[..|b| - 1];
    }
  }

  /** White space anywhere in a typed code does not matter, everything else does. */
  lemma SpacesDoNotMatter(before: string, c: char, after: string)
    ensures StripSpace("") == ""
    ensures StripSpace(before + [c] + after) ==
            StripSpace(before) + (if c == ' ' || c == '\t' || c == '\n' || c == '\r' then "" else [c]) + StripSpace(after)
  {
    StripSpaceConcat(before + [c], after);
    StripSpaceConcat(before, [c]);
    assert [c][..0] == "";
  }

  predicate SixDigits(s: string) { |s| == 6 && forall c <- s :: '0' <= c <= '9' }

  /** `code` stands for the keyed hash: the six digits of each time step under one secret. */
  ghost predicate Matches(code: nat -> string, candidate: string, step: int) {
    step >= 0 && SixDigits(StripSpace(candidate)) && code(step) == StripSpace(candidate)
  }

  /** The earliest of the previous, the current and the next step whose code it is. */
  method TotpStep(code: nat -> string, candidate: string, at: nat) returns (step: Option<nat>)
    requires at >= STEP_MS
    ensures step.Some? ==> Matches(code, candidate, step.value) && at / 30_000 - 1 <= step.value <= at / 30_000 + 1
    ensures forall s | at / 30_000 - 1 <= s <= at / 30_000 + 1 && Matches(code, candidate, s) :: step.Some? && step.value <= s
  {
    var normalized := StripSpace(candidate);
    if !SixDigits(normalized) { return None; }
    var drifts := [-STEP_MS, 0, STEP_MS];
    for k := 0 to 3
      invariant forall s | at / STEP_MS - 1 <= s < at / STEP_MS - 1 + k :: !Matches(code, candidate, s)
    {
      var counter := (at + drifts[k]) / STEP_MS;
      assert counter == at / STEP_MS - 1 + k;
      if code(counter) == normalized { return Some(counter); }
    }
    return None;
  }

  // ===== used steps ===========================================================

  class Device {
    var present: bool
    var lastStep: Option<int>

    constructor (lastStep: Option<int>)
      ensures present && this.lastStep == lastStep
    {
      present, this.lastStep := true, lastStep;
    }

    method ConsumeDeviceStep(step: int) returns (consumed: bool)
      modifies this`lastStep
      ensures consumed <==> present && Fresher(step, old(lastStep))
      ensures lastStep == if consumed then Some(step) else old(lastStep)
    {
      if present && (lastStep.None? || lastStep.value < step) {
        lastStep := Some(step);
        return true;
      }
      return false;
    }
  }

  predicate Fresher(step: int, last: Option<int>) { last.None? || last.value < step }

  /** The device row after a series of attempts. */
  function LastStep(start: Option<int>, attempts: seq<int>): Option<int> {
    if |attempts| == 0 then start
    else
      var last := LastStep(start, attempts[..|attempts| - 1]);
      if Fresher(attempts[|attempts| - 1], last) then Some(attempts[|attempts| - 1]) else last
  }

  /** Attempt i is accepted. */
  predicate Accepted(start: Option<int>, attempts: seq<int>, i: nat)
    requires i < |attempts|
  {
    Fresher(attempts[i], LastStep(start, attempts[..i]))
  }

  lemma {:induction false} LastStepIsMaximum(start: Option<int>, attempts: seq<int>)
    ensures forall x <- attempts :: !Fresher(x, LastStep(start, attempts))
    ensures start.Some? ==> !Fresher(start.value, LastStep(start, attempts))
    ensures LastStep(start, attempts) == start || (LastStep(start, attempts).Some? && LastStep(start, attempts).value in attempts)
  {
    if |attempts| > 0 {
      LastStepIsMaximum(start, attempts[..|attempts| - 1]);
      assert attempts == attempts[..|attempts| - 1] + [attempts[|attempts| - 1]];
    }
  }

  /** An attempt is accepted exactly when its step is later than the device's first and than every step tried before, accepted or not. */
  lemma AcceptedIffRecord(start: Option<int>, attempts: seq<int>, i: nat)
    requires i < |attempts|
    ensures Accepted(start, attempts, i) <==>
            Fresher(attempts[i], start) && forall j | 0 <= j < i :: attempts[j] < attempts[i]
  {
    LastStepIsMaximum(start, attempts[..i]);
    var last := LastStep(start, attempts[..i]);
    forall j | 0 <= j < i ensures !Fresher(attempts[j], last) { assert attempts[..i][j] in attempts[..i]; }
    if last.Some? && last.value in attempts[..i] {
      var j :| 0 <= j < i && attempts[..i][j] == last.value;
      assert attempts[j] == last.value;
    }
  }

  /** Hence accepted steps strictly increase over any run: no step is accepted twice. */
  lemma NoStepTwice(start: Option<int>, attempts: seq<int>, i: nat, j: nat)
    requires i < j < |attempts| && Accepted(start, attempts, i) && Accepted(start, attempts, j)
    ensures attempts[i] < attempts[j]
  {
    AcceptedIffRecord(start, attempts, j);
  }
}
