/**
 * The two decoders of one profile format: the byte loop that runs on agents
 * (agent/internal/profile/decoder.go) and the format's second implementation in Python
 * (agent/vehicle_agent/profile_decoder.py), which the backend constructs to validate a profile
 * and which decodes for the Python agent.
 */
module Decoder {
  import opened Options
  import opened Sequences
  import opened Bits

  type Byte = b: int | 0 <= b < 256

  const WORD_BITS: nat := 64

  datatype DataType = Unsigned(bytes: nat) | Signed(bytes: nat) | Bytes | Flag

  /** uint8, uint16, uint32 and their signed kin; the profile names no other widths. */
  predicate IsNamedType(t: DataType) {
    (t.Unsigned? || t.Signed?) ==> t.bytes == 1 || t.bytes == 2 || t.bytes == 4
  }

  datatype Field = Field(
    dataType: DataType,
    byteOffset: nat,
    length: Option<int>,
    signed: bool,
    endianness: Option<string>,
    bit: int,
    mask: Option<nat>,
    shift: nat)

  datatype Raw = Rejected | Switch(on: bool) | Number(n: int)

  /** The positional value of bytes, most significant first. */
  function BigEndian(s: seq<Byte>): nat {
    if s == [] then 0 else BigEndian(s[..|s| - 1]) * 256 + s[|s| - 1]
  }

  function InOrder(s: seq<Byte>, little: bool): seq<Byte> {
    if little then Reversed(s) else s
  }

  /** Two's complement of a width in bits. */
  function TwosComplement(u: int, bits: nat): int
    requires bits > 0
  {
    if u >= Pow2(bits - 1) then u - Pow2(bits) else u
  }

  function Masked(u: nat, mask: Option<nat>): nat {
    if mask.Some? then And(u, mask.value) else u
  }

  // The agent.

  /** What a word keeps of a number. */
  function LowWord(v: int): (word: nat)
    ensures word < Pow2(WORD_BITS)
  {
    v - ShiftRight(v, WORD_BITS) * Pow2(WORD_BITS)
  }

  lemma LowWordIs(v: int, turns: int, word: nat)
    requires v == turns * Pow2(WORD_BITS) + word && word < Pow2(WORD_BITS)
    ensures LowWord(v) == word
  {
    hide Pow2, ShiftRight;
    ShiftIs(v, WORD_BITS, turns);
  }

  /** A word as the machine's signed integer of the same width. */
  function AsSigned(word: nat): int
    requires word < Pow2(WORD_BITS)
  {
    if word >= Pow2(WORD_BITS - 1) then word - Pow2(WORD_BITS) else word
  }

  /** raw | (^0 << bits), read as a signed word. */
  function SignExtended(raw: nat, bits: nat): int
    requires raw < Pow2(bits) && bits <= WORD_BITS
  {
    ExtensionFits(raw, bits);
    AsSigned(Or(raw, Pow2(WORD_BITS) - Pow2(bits)))
  }

  lemma ExtensionFits(raw: nat, bits: nat)
    requires raw < Pow2(bits) && bits <= WORD_BITS
    ensures Pow2(bits) <= Pow2(WORD_BITS)
    ensures Or(raw, Pow2(WORD_BITS) - Pow2(bits)) == Pow2(WORD_BITS) - Pow2(bits) + raw < Pow2(WORD_BITS)
  {
    hide Pow2, Or;
    Pow2Grows(bits, WORD_BITS);
    var x := Pow2(WORD_BITS - bits) - 1;
    assert x * Pow2(bits) == Pow2(WORD_BITS) - Pow2(bits);
    OrOfDisjoint(x, raw, bits);
    OrCommutes(x * Pow2(bits), raw);
  }

  /** What the agent makes of the slice's positional value. */
  function AgentNumber(u: nat, bits: nat, signed: bool, mask: Option<nat>, shift: nat): int
    requires 0 < bits
  {
    var raw := ShiftRight(Masked(u, mask), shift);
    if signed then TwosComplement(raw, bits) else raw
  }

  /** The slice a field names: where it starts is checked first, then its length. */
  function AgentLength(f: Field): int {
    match f.dataType
    case Unsigned(n) => n
    case Signed(n) => n
    case Bytes => if f.length.Some? then f.length.value else 0
    case Flag => 1
  }

  predicate IsSigned(f: Field) {
    f.dataType.Signed? || (f.dataType.Bytes? && f.signed)
  }

  predicate AgentSlices(f: Field, data: seq<Byte>) {
    f.byteOffset < |data| && 1 <= AgentLength(f) <= 8 && f.byteOffset + AgentLength(f) <= |data|
  }

  function AgentEndianness(f: Field): string {
    if f.endianness.None? || f.endianness.value == "" then "big" else f.endianness.value
  }

  predicate KnownEndianness(name: string) {
    name == "big" || name == "little"
  }

  function AgentRaw(f: Field, data: seq<Byte>): Raw {
    if f.dataType.Flag? then
      if f.byteOffset >= |data| || !(0 <= f.bit <= 7) then Rejected
      else Switch(And(data[f.byteOffset], Pow2(f.bit)) != 0)
    else if !AgentSlices(f, data) || !KnownEndianness(AgentEndianness(f)) then Rejected
    else
      var length := AgentLength(f);
      var slice := data[f.byteOffset..f.byteOffset + length];
      Number(AgentNumber(BigEndian(InOrder(slice, AgentEndianness(f) == "little")), 8 * length, IsSigned(f), f.mask, f.shift))
  }

  lemma {:induction false} BigEndianIsBounded(s: seq<Byte>)
    ensures BigEndian(s) < Pow2(8 * |s|)
  {
    if s == [] {
    } else {
      BigEndianIsBounded(s[..|s| - 1]);
      Pow2Adds(8 * (|s| - 1), 8);
      assert Pow2(8) == 256;
      assert BigEndian(s[..|s| - 1]) + 1 <= Pow2(8 * (|s| - 1));
    }
  }

  /** Shifting the word and adding the next byte never overflows it while it has room for that byte. */
  lemma ByteJoins(raw: nat, read: nat, b: Byte)
    requires read < 8 && raw < Pow2(8 * read)
    ensures Or(LowWord(raw * 256), b) == raw * 256 + b
    ensures raw * 256 + b < Pow2(8 * (read + 1))
  {
    assert Pow2(8) == 256;
    hide Pow2, Or, LowWord;
    Pow2Adds(8 * read, 8);
    assert 8 * (read + 1) == 8 * read + 8;
    Pow2Grows(8 * (read + 1), WORD_BITS);
    MulMono(raw + 1, Pow2(8 * read), 256);
    LowWordIs(raw * 256, 0, raw * 256);
    OrOfDisjoint(raw, b, 8);
  }

  // The value of a slice, byte by byte: data[offset + i] counts 256^(length - 1 - i), or 256^i.

  function Power256(k: nat): (p: nat)
    ensures p > 0
  {
    if k == 0 then 1 else 256 * Power256(k - 1)
  }

  function SumFromBig(data: seq<Byte>, offset: nat, length: nat): nat
    requires offset + length <= |data|
    decreases length
  {
    if length == 0 then 0 else data[offset] * Power256(length - 1) + SumFromBig(data, offset + 1, length - 1)
  }

  function SumFromLittle(data: seq<Byte>, offset: nat, length: nat): nat
    requires offset + length <= |data|
  {
    if length == 0 then 0 else SumFromLittle(data, offset, length - 1) + data[offset + length - 1] * Power256(length - 1)
  }

  lemma {:induction false} Power256IsPow2(k: nat)
    ensures Power256(k) == Pow2(8 * k)
  {
    if k > 0 {
      Power256IsPow2(k - 1);
      Pow2Adds(8, 8 * (k - 1));
      assert 8 + 8 * (k - 1) == 8 * k && Pow2(8) == 256;
    }
  }

  lemma {:induction false} BigEndianIsSum(data: seq<Byte>, offset: nat, length: nat)
    requires offset + length <= |data|
    ensures BigEndian(data[offset..offset + length]) == SumFromBig(data, offset, length)
    decreases length
  {
    var slice := data[offset..offset + length];
    if length > 0 {
      BigEndianIsPositional(slice);
      BigEndianIsSum(data, offset + 1, length - 1);
      assert slice[1..] == data[offset + 1..offset + 1 + (length - 1)];
      Power256IsPow2(length - 1);
      hide BigEndian, Pow2, Power256;
    } else {
      assert slice == [];
    }
  }

  lemma {:induction false} ReversedIsSum(data: seq<Byte>, offset: nat, length: nat)
    requires offset + length <= |data|
    ensures BigEndian(Reversed(data[offset..offset + length])) == SumFromLittle(data, offset, length)
  {
    var slice := data[offset..offset + length];
    if length > 0 {
      var front, last := data[offset..offset + length - 1], data[offset + length - 1];
      ReversedIsSum(data, offset, length - 1);
      assert slice == front + [last] && slice[..|slice| - 1] == front;
      assert Reversed(slice) == [last] + Reversed(front);
      assert Reversed(slice)[1..] == Reversed(front);
      BigEndianIsPositional(Reversed(slice));
      Power256IsPow2(length - 1);
      hide BigEndian, Pow2, Power256, Reversed;
    } else {
      assert slice == [];
    }
  }

  lemma OrderedIsSum(data: seq<Byte>, offset: nat, length: nat, little: bool)
    requires offset + length <= |data|
    ensures var ordered := InOrder(data[offset..offset + length], little);
      && |ordered| == length
      && BigEndian(ordered) == (if little then SumFromLittle(data, offset, length) else SumFromBig(data, offset, length))
      && forall i :: 0 <= i < length ==> ordered[i] == data[offset + if little then length - i - 1 else i]
  {
    hide BigEndian, SumFromBig, SumFromLittle, Reversed;
    if little {
      ReversedIsSum(data, offset, length);
    } else {
      BigEndianIsSum(data, offset, length);
    }
  }

  lemma BigEndianNext(s: seq<Byte>, i: nat)
    requires i < |s|
    ensures BigEndian(s[..i + 1]) == BigEndian(s[..i]) * 256 + s[i]
  {
    assert s[..i + 1][..i] == s[..i];
  }

  lemma NoBytes(s: seq<Byte>)
    ensures BigEndian(s[..0]) == 0 && 0 < Pow2(8 * 0)
  {
  }

  /** The byte loop: positions from either end, one word, eight bits at a time. */
  method ReadWord(data: seq<Byte>, offset: nat, length: nat, endianness: string) returns (raw: Option<nat>)
    requires 1 <= length <= 8 && offset + length <= |data|
    ensures raw == if KnownEndianness(endianness)
                   then Some(BigEndian(InOrder(data[offset..offset + length], endianness == "little"))) else None
    ensures raw.Some? <==> endianness == "big" || endianness == "little"
    ensures raw.Some? ==> raw.value < Pow2(8 * length)
    ensures endianness == "big" ==> raw == Some(SumFromBig(data, offset, length))
    ensures endianness == "little" ==> raw == Some(SumFromLittle(data, offset, length))
  {
    hide BigEndian, InOrder, Pow2, Or, LowWord, SumFromBig, SumFromLittle;
    ghost var ordered := InOrder(data[offset..offset + length], endianness == "little");
    OrderedIsSum(data, offset, length, endianness == "little");
    NoBytes(ordered);
    var word: nat := 0;
    for index := 0 to length
      invariant KnownEndianness(endianness) || index == 0
      invariant word == BigEndian(ordered[..index])
      invariant word < Pow2(8 * index)
    {
      var position := index;
      if endianness == "little" {
        position := length - index - 1;
      } else if endianness != "big" {
        return None;
      }
      BigEndianNext(ordered, index);
      ByteJoins(word, index, data[offset + position]);
      word := Or(LowWord(word * 256), data[offset + position]);
    }
    assert ordered[..length] == ordered;
    raw := Some(word);
  }

  method DecodeRaw(f: Field, data: seq<Byte>) returns (r: Raw)
    ensures r == AgentRaw(f, data)
  {
    hide And, Or, BigEndian, InOrder, Pow2, ShiftRight, Masked, LowWord;
    if f.byteOffset >= |data| {
      return Rejected;
    }
    if f.dataType.Flag? {
      if f.bit < 0 || f.bit > 7 {
        return Rejected;
      }
      return Switch(And(data[f.byteOffset], Pow2(f.bit)) != 0);
    }
    var length := AgentLength(f);
    if length <= 0 || f.byteOffset + length > |data| || length > 8 {
      return Rejected;
    }
    var word := ReadWord(data, f.byteOffset, length, AgentEndianness(f));
    if word.None? {
      return Rejected;
    }
    var u, bits := word.value, 8 * length;
    var raw := ShiftRight(Masked(u, f.mask), f.shift);
    MaskedShiftFits(u, f.mask, f.shift, bits);
    Pow2Grows(bits, WORD_BITS);
    if IsSigned(f) && raw >= Pow2(bits - 1) {
      SignExtensionIsTwosComplement(raw, bits);
      return Number(SignExtended(raw, bits));
    }
    return Number(raw);
  }

  lemma MaskedShiftFits(u: nat, mask: Option<nat>, shift: nat, bits: nat)
    requires u < Pow2(bits)
    ensures Masked(u, mask) <= u && 0 <= ShiftRight(Masked(u, mask), shift) < Pow2(bits)
  {
    if mask.Some? {
      AndIsSmaller(u, mask.value);
    }
    hide And, Pow2, ShiftRight;
  }

  lemma SignExtensionIsTwosComplement(raw: nat, bits: nat)
    requires 0 < bits <= WORD_BITS && Pow2(bits - 1) <= raw < Pow2(bits)
    ensures SignExtended(raw, bits) == TwosComplement(raw, bits)
  {
    Pow2Grows(bits, WORD_BITS);
    assert Pow2(WORD_BITS) == 2 * Pow2(WORD_BITS - 1) && Pow2(bits) == 2 * Pow2(bits - 1);
    hide Pow2, Or;
    ExtensionFits(raw, bits);
  }

  // The Python decoder.

  /** Python's v & m for a mask of at most a word: the low bits of the infinite two's complement of v. */
  function PythonMasked(v: int, mask: Option<nat>): int {
    if mask.Some? then And(LowWord(v), mask.value) else v
  }

  /** int.from_bytes, the mask, then an arithmetic shift. */
  function PythonNumber(u: nat, bits: nat, signed: bool, mask: Option<nat>, shift: nat): int
    requires 0 < bits
  {
    var v := if signed then TwosComplement(u, bits) else u;
    ShiftRight(PythonMasked(v, mask), shift)
  }

  function PythonLength(f: Field): int {
    if f.dataType.Bytes? && f.length.None? then 1 else AgentLength(f)
  }

  function PythonRaw(f: Field, data: seq<Byte>): Raw {
    if f.dataType.Flag? then
      if f.byteOffset >= |data| || !(0 <= f.bit <= 7) then Rejected
      else Switch(And(data[f.byteOffset], Pow2(f.bit)) != 0)
    else
      var length := PythonLength(f);
      var endianness := if f.endianness.Some? then f.endianness.value else "big";
      if length < 0 || !KnownEndianness(endianness) then Rejected
      else if length == 0 then Number(0)
      else if f.byteOffset + length > |data| then Rejected
      else
        var slice := data[f.byteOffset..f.byteOffset + length];
        Number(PythonNumber(BigEndian(InOrder(slice, endianness == "little")), 8 * length, IsSigned(f), f.mask, f.shift))
  }

  // Where the two agree.

  lemma {:induction false} BigEndianIsPositional(s: seq<Byte>)
    requires s != []
    ensures BigEndian(s) == s[0] * Pow2(8 * (|s| - 1)) + BigEndian(s[1..])
  {
    assert Pow2(0) == 1;
    if |s| == 1 {
      assert s[..0] == [] && s[1..] == [];
      assert BigEndian(s) == BigEndian([]) * 256 + s[0];
    } else {
      var n := |s| - 1;
      BigEndianIsPositional(s[..n]);
      assert s[..n][1..] == s[1..][..n - 1];
      Pow2Adds(8 * (n - 1), 8);
      assert Pow2(8) == 256 && 8 * (n - 1) + 8 == 8 * n;
      hide Pow2;
      TimesRegroups(s[0], Pow2(8 * (n - 1)), 256);
    }
  }

  /** Two's complement lies in the signed range of its width and differs from the unsigned value by a whole turn, if at all. */
  lemma TwosComplementFits(u: nat, bits: nat)
    requires bits > 0 && u < Pow2(bits)
    ensures 0 <= TwosComplement(u, bits) + Pow2(bits - 1) < Pow2(bits)
    ensures TwosComplement(u, bits) == u || TwosComplement(u, bits) == u - Pow2(bits)
  {
  }

  /** A value below the sign bit is read alike by both, whatever the mask and shift; so is any unsigned value. */
  lemma PlainNumbersAgree(u: nat, bits: nat, signed: bool, mask: Option<nat>, shift: nat)
    requires 0 < bits <= WORD_BITS && u < Pow2(bits) && (signed ==> u < Pow2(bits - 1))
    ensures AgentNumber(u, bits, signed, mask, shift) == PythonNumber(u, bits, signed, mask, shift)
  {
    hide Pow2, And, ShiftRight, LowWord;
    Pow2Grows(bits, WORD_BITS);
    MaskedShiftFits(u, mask, shift, if signed then bits - 1 else bits);
    LowWordIs(u, 0, u);
  }

  /** The mask's bits above the width, which only a negative number reaches. */
  function HighBits(m: nat, bits: nat): nat {
    ShiftRight(m, bits) * Pow2(bits)
  }

  lemma HighBitsAreHigh(m: nat, bits: nat)
    requires m < Pow2(WORD_BITS) && bits <= WORD_BITS
    ensures And(Pow2(WORD_BITS - bits) - 1, ShiftRight(m, bits)) == ShiftRight(m, bits)
  {
    hide Pow2, And, ShiftRight;
    Pow2Grows(bits, WORD_BITS);
    LessFactor(ShiftRight(m, bits), Pow2(WORD_BITS - bits), Pow2(bits));
    OnesKeep(WORD_BITS - bits, ShiftRight(m, bits));
  }

  /** A word with ones above a width, masked: the mask's own bits there, and the conjunction below. */
  lemma OnesAboveMasked(u: nat, bits: nat, m: nat)
    requires bits <= WORD_BITS && u < Pow2(bits) && m < Pow2(WORD_BITS)
    ensures Pow2(bits) <= Pow2(WORD_BITS)
    ensures And(Pow2(WORD_BITS) - Pow2(bits) + u, m) == HighBits(m, bits) + And(u, m)
  {
    hide Pow2, And, ShiftRight;
    var x := Pow2(WORD_BITS - bits) - 1;
    Pow2Grows(bits, WORD_BITS);
    OneMore(x, Pow2(bits));
    AndSplits(x, u, m, bits);
    HighBitsAreHigh(m, bits);
  }

  lemma PythonMaskedIs(v: int, m: nat)
    ensures PythonMasked(v, Some(m)) == And(LowWord(v), m)
  {
    hide And, LowWord;
  }

  /** A negative number's word is all ones above its width. */
  lemma NegativeLowWord(u: nat, bits: nat)
    requires 0 < bits <= WORD_BITS && u < Pow2(bits) <= Pow2(WORD_BITS)
    ensures LowWord(u - Pow2(bits)) == Pow2(WORD_BITS) - Pow2(bits) + u
  {
    hide *;
    LowWordIs(u - Pow2(bits), -1, Pow2(WORD_BITS) - Pow2(bits) + u);
  }

  /** Python masks a negative number as the word's bits and, above them, the mask's own. */
  lemma NegativeMasked(u: nat, bits: nat, m: nat)
    requires 0 < bits <= WORD_BITS && u < Pow2(bits) && m < Pow2(WORD_BITS)
    ensures PythonMasked(u - Pow2(bits), Some(m)) == And(u, m) + HighBits(m, bits)
  {
    hide *;
    Pow2Grows(bits, WORD_BITS);
    OnesAboveMasked(u, bits, m);
    NegativeLowWord(u, bits);
    PythonMaskedIs(u - Pow2(bits), m);
  }

  /**
   * When the two decoders make one number of the same slice: it is not negative, or nothing is masked
   * or shifted away, or, under a mask, the agent does not see the sign bit and Python sees no bit
   * above the width.
   */
  predicate NumbersAgreeIf(u: nat, bits: nat, signed: bool, mask: Option<nat>, shift: nat)
    requires bits > 0
  {
    || !signed
    || u < Pow2(bits - 1)
    || (match mask
        case None => shift == 0
        case Some(m) => ShiftRight(And(u, m), shift) < Pow2(bits - 1) && ShiftRight(HighBits(m, bits), shift) == 0)
  }

  lemma NegativeUnmasked(u: nat, bits: nat, shift: nat)
    requires 0 < bits && Pow2(bits - 1) <= u < Pow2(bits)
    ensures AgentNumber(u, bits, true, None, shift) == PythonNumber(u, bits, true, None, shift) <==> shift == 0
  {
    if shift == 0 {
      hide Pow2, ShiftRight;
      NoShift(u);
      NoShift(u - Pow2(bits));
    } else {
      ShiftedPastSign(u, bits, shift);
      hide Pow2, ShiftRight;
    }
  }

  lemma ShiftedPastSign(u: nat, bits: nat, shift: nat)
    requires 0 < bits && 0 < shift && u < Pow2(bits)
    ensures 0 <= ShiftRight(u, shift) < Pow2(bits - 1)
    ensures ShiftRight(u - Pow2(bits), shift) < 0
  {
    assert Pow2(bits) == 2 * Pow2(bits - 1) && Pow2(1) == 2 * Pow2(0) && Pow2(0) == 1;
    hide Pow2, ShiftRight;
    Pow2Grows(1, shift);
    MulMono(2, Pow2(shift), ShiftRight(u, shift));
  }

  lemma NegativeMaskedAgreesIff(u: nat, bits: nat, m: nat, shift: nat)
    requires 0 < bits <= WORD_BITS && Pow2(bits - 1) <= u < Pow2(bits) && m < Pow2(WORD_BITS)
    ensures AgentNumber(u, bits, true, Some(m), shift) == PythonNumber(u, bits, true, Some(m), shift)
            <==> ShiftRight(And(u, m), shift) < Pow2(bits - 1) && ShiftRight(HighBits(m, bits), shift) == 0
  {
    hide Pow2, ShiftRight, And, LowWord, PythonMasked;
    NegativeMasked(u, bits, m);
    AndIsSmaller(u, m);
    MaskedShiftFits(u, Some(m), shift, bits);
    HighBitsSurviveIff(And(u, m), ShiftRight(m, bits), bits, shift);
  }

  /** Exactly when the two decoders agree on a slice they both accept. */
  lemma NumbersAgreeIff(u: nat, bits: nat, signed: bool, mask: Option<nat>, shift: nat)
    requires 0 < bits <= WORD_BITS && u < Pow2(bits) && (mask.Some? ==> mask.value < Pow2(WORD_BITS))
    ensures AgentNumber(u, bits, signed, mask, shift) == PythonNumber(u, bits, signed, mask, shift)
            <==> NumbersAgreeIf(u, bits, signed, mask, shift)
  {
    if !signed || u < Pow2(bits - 1) {
      PlainNumbersAgree(u, bits, signed, mask, shift);
    } else if mask.None? {
      NegativeUnmasked(u, bits, shift);
    } else {
      NegativeMaskedAgreesIff(u, bits, mask.value, shift);
    }
    hide Pow2, And, AgentNumber, PythonNumber, HighBits;
  }

  /**
   * One of the two accepts the frame and the other refuses it: an empty byte order is big-endian to the
   * agent alone; a byte field without a length, of length 0, or of more than 8 bytes is a slice to the
   * Python decoder alone.
   */
  predicate AcceptedByOne(f: Field, data: seq<Byte>) {
    !f.dataType.Flag?
    && if f.endianness == Some("") then AgentSlices(f, data)
       else
         KnownEndianness(AgentEndianness(f)) && f.dataType.Bytes?
         && match f.length
            case None => f.byteOffset < |data|
            case Some(n) => n == 0 || (n > 8 && f.byteOffset + n <= |data|)
  }

  /** What the profile schema lets through, as far as slicing goes. */
  predicate IsAdmitted(f: Field) {
    IsNamedType(f.dataType) && (f.length.Some? ==> 1 <= f.length.value <= 64) && f.endianness.Some? && KnownEndianness(f.endianness.value)
  }

  /** For every field: both accept a frame or both refuse it, exactly unless it is accepted by one. */
  lemma AcceptanceAgreesIff(f: Field, data: seq<Byte>)
    requires IsNamedType(f.dataType)
    ensures (AgentRaw(f, data).Rejected? <==> PythonRaw(f, data).Rejected?) <==> !AcceptedByOne(f, data)
    ensures AgentRaw(f, data).Switch? || PythonRaw(f, data).Switch? ==> AgentRaw(f, data) == PythonRaw(f, data)
    ensures IsAdmitted(f) && |data| <= 8 ==> (AcceptedByOne(f, data) <==> f.dataType.Bytes? && f.length.None? && f.byteOffset < |data|)
  {
    hide And, Pow2, BigEndian, InOrder, AgentNumber, PythonNumber;
  }

  /** What a profile has to spell out for the two to slice every frame alike: a length of 1 to 8 bytes, and no empty byte order. */
  predicate IsExplicit(f: Field) {
    && IsNamedType(f.dataType)
    && (f.dataType.Bytes? ==> f.length.Some? && 1 <= f.length.value <= 8)
    && f.endianness != Some("")
    && (f.mask.Some? ==> f.mask.value < Pow2(WORD_BITS))
  }

  lemma SlicesAgree(f: Field, data: seq<Byte>)
    requires IsExplicit(f)
    ensures AgentRaw(f, data).Rejected? <==> PythonRaw(f, data).Rejected?
    ensures AgentRaw(f, data).Switch? || PythonRaw(f, data).Switch? ==> AgentRaw(f, data) == PythonRaw(f, data)
  {
    AcceptanceAgreesIff(f, data);
    hide Pow2, AgentRaw, PythonRaw;
  }

  /** Both decoders accept the same frames, and read the same value out of any unsigned field. */
  lemma DecodersAgreeOnUnsigned(f: Field, data: seq<Byte>)
    requires IsExplicit(f) && !IsSigned(f)
    ensures AgentRaw(f, data) == PythonRaw(f, data)
  {
    SlicesAgree(f, data);
    if AgentRaw(f, data).Number? {
      AgreementOfNumbers(f, data);
    }
    hide And, Pow2, BigEndian, InOrder, AgentNumber, PythonNumber, AgentRaw, PythonRaw;
  }

  /** And out of any signed field without mask and shift. */
  lemma DecodersAgreeOnPlainSigned(f: Field, data: seq<Byte>)
    requires IsExplicit(f) && f.mask.None? && f.shift == 0
    ensures AgentRaw(f, data) == PythonRaw(f, data)
  {
    SlicesAgree(f, data);
    if AgentRaw(f, data).Number? {
      AgreementOfNumbers(f, data);
    }
    hide And, Pow2, BigEndian, InOrder, AgentNumber, PythonNumber, AgentRaw, PythonRaw;
  }

  function PositionalValue(f: Field, data: seq<Byte>): nat
    requires AgentSlices(f, data)
  {
    BigEndian(InOrder(data[f.byteOffset..f.byteOffset + AgentLength(f)], AgentEndianness(f) == "little"))
  }

  lemma AgreementOfNumbers(f: Field, data: seq<Byte>)
    requires IsExplicit(f) && AgentRaw(f, data).Number?
    ensures !f.dataType.Flag? && AgentSlices(f, data)
    ensures AgentRaw(f, data) == PythonRaw(f, data)
            <==> NumbersAgreeIf(PositionalValue(f, data), 8 * AgentLength(f), IsSigned(f), f.mask, f.shift)
  {
    hide And, Pow2, BigEndian, AgentNumber, PythonNumber, NumbersAgreeIf;
    var u := PositionalValue(f, data);
    BigEndianIsBounded(InOrder(data[f.byteOffset..f.byteOffset + AgentLength(f)], AgentEndianness(f) == "little"));
    NumbersAgreeIff(u, 8 * AgentLength(f), IsSigned(f), f.mask, f.shift);
  }

  lemma AcceptedIsExplicit(f: Field, data: seq<Byte>)
    requires IsNamedType(f.dataType) && (f.mask.Some? ==> f.mask.value < Pow2(WORD_BITS))
    requires AgentRaw(f, data).Number?
    ensures AgentSlices(f, data) && !f.dataType.Flag?
    ensures !AcceptedByOne(f, data) ==> IsExplicit(f)
  {
    hide And, Pow2, BigEndian, InOrder, AgentNumber;
  }

  /** The two decoders give the same for a field and a frame exactly when neither alone accepts it and, if both do, the numbers agree. */
  lemma DecodersAgreeIff(f: Field, data: seq<Byte>)
    requires IsNamedType(f.dataType) && (f.mask.Some? ==> f.mask.value < Pow2(WORD_BITS))
    ensures AgentRaw(f, data).Number? ==> AgentSlices(f, data) && !f.dataType.Flag?
    ensures AgentRaw(f, data) == PythonRaw(f, data)
            <==> !AcceptedByOne(f, data)
                 && (AgentRaw(f, data).Number?
                     ==> NumbersAgreeIf(PositionalValue(f, data), 8 * AgentLength(f), IsSigned(f), f.mask, f.shift))
  {
    hide AgentRaw, PythonRaw, AcceptedByOne, NumbersAgreeIf, PositionalValue, IsExplicit, AgentSlices, Pow2;
    AcceptanceAgreesIff(f, data);
    if AgentRaw(f, data).Number? {
      AcceptedIsExplicit(f, data);
      if !AcceptedByOne(f, data) {
        AgreementOfNumbers(f, data);
      }
    }
  }

  /** Shifting a negative number: the agent reads 127 where Python reads -1. */
  lemma ShiftedSignDiffers()
    ensures var f := Field(Signed(1), 0, None, false, None, 0, None, 1);
      AgentRaw(f, [0xff]) == Number(127) && PythonRaw(f, [0xff]) == Number(-1)
  {
    hide BigEndian, InOrder, ShiftRight, Pow2, And;
    SingleByte(0xff);
    SmallPowers();
    ShiftIs(255, 1, 127);
    ShiftIs(-1, 1, -1);
  }

  /** Masking the sign bit alone: the agent reads -128 where Python reads 128. */
  lemma MaskedSignDiffers()
    ensures var f := Field(Signed(1), 0, None, false, None, 0, Some(0x80), 0);
      AgentRaw(f, [0xff]) == Number(-128) && PythonRaw(f, [0xff]) == Number(128)
  {
    hide BigEndian, InOrder, AgentNumber, PythonNumber;
    SingleByte(0xff);
    MaskedSignAlone();
  }

  lemma SmallPowers()
    ensures Pow2(0) == 1 && Pow2(1) == 2 && Pow2(7) == 128 && Pow2(8) == 256
  {
  }

  lemma MaskedSignAlone()
    ensures AgentNumber(255, 8, true, Some(0x80), 0) == -128
    ensures PythonNumber(255, 8, true, Some(0x80), 0) == 128
  {
    hide ShiftRight, Pow2, And, LowWord, PythonMasked;
    SmallPowers();
    OnesKeep(8, 0x80);
    Pow2Grows(8, WORD_BITS);
    NegativeMasked(255, 8, 0x80);
    ShiftIs(0x80, 8, 0);
    NoShift(0x80);
  }

  lemma SingleByte(b: Byte)
    ensures BigEndian(InOrder([b][0..0 + 1], false)) == b
  {
    assert [b][0..1] == [b] && [b][..0] == [];
  }

  /** A byte field without a length: the agent refuses it, Python reads one byte. */
  lemma OmittedLengthDiffers()
    ensures var f := Field(Bytes, 0, None, false, None, 0, None, 0);
      AgentRaw(f, [7]) == Rejected && PythonRaw(f, [7]) == Number(7)
  {
    SingleByte(7);
    hide BigEndian, InOrder, ShiftRight, Pow2, And;
    NoShift(7);
  }
}
