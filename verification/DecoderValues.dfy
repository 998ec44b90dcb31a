/** What the agent's decoder reads, type by type, in the bytes of the frame. */
module DecoderValues {
  import opened Options
  import opened Sequences
  import opened Bits
  import opened Decoder

  /** The sum of a slice's bytes at their places, in the field's own order; big-endian unless it says little. */
  function SliceValue(f: Field, data: seq<Byte>, length: nat): nat
    requires f.byteOffset + length <= |data|
  {
    if f.endianness == Some("little") then SumFromLittle(data, f.byteOffset, length) else SumFromBig(data, f.byteOffset, length)
  }

  predicate NamesAnOrder(f: Field) {
    f.endianness in {None, Some(""), Some("big"), Some("little")}
  }

  predicate IsPlain(f: Field) {
    f.mask.None? && f.shift == 0
  }

  /** Two's complement of so many bytes, in turns of 256. */
  function SignedValue(u: nat, bytes: nat): int
    requires bytes > 0
  {
    if 2 * u >= Power256(bytes) then u - Power256(bytes) else u
  }

  lemma SlicedValue(f: Field, data: seq<Byte>)
    requires AgentSlices(f, data) && NamesAnOrder(f)
    ensures PositionalValue(f, data) == SliceValue(f, data, AgentLength(f))
  {
    BigEndianIsSum(data, f.byteOffset, AgentLength(f));
    ReversedIsSum(data, f.byteOffset, AgentLength(f));
    hide BigEndian, Reversed, SumFromBig, SumFromLittle;
  }

  lemma SignedIsTwosComplement(u: nat, bytes: nat)
    requires bytes > 0
    ensures TwosComplement(u, 8 * bytes) == SignedValue(u, bytes)
  {
    Power256IsPow2(bytes);
    assert Pow2(8 * bytes) == 2 * Pow2(8 * bytes - 1);
    hide Pow2, Power256;
  }

  lemma PlainNumber(f: Field, data: seq<Byte>)
    requires !f.dataType.Flag? && IsPlain(f) && NamesAnOrder(f) && AgentSlices(f, data)
    ensures var length := AgentLength(f); var u := SliceValue(f, data, length);
      AgentRaw(f, data) == Number(if IsSigned(f) then SignedValue(u, length) else u)
  {
    var length := AgentLength(f);
    SlicedValue(f, data);
    SignedIsTwosComplement(SliceValue(f, data, length), length);
    NoShift(SliceValue(f, data, length));
    hide Pow2, Power256, ShiftRight, BigEndian, InOrder, SliceValue, TwosComplement, SignedValue;
  }

  /** A plain integer type reads its own number of bytes, and is refused when the frame is too short for them. */
  lemma IntegersRead(f: Field, data: seq<Byte>)
    requires IsNamedType(f.dataType) && (f.dataType.Unsigned? || f.dataType.Signed?) && IsPlain(f) && NamesAnOrder(f)
    ensures var n := f.dataType.bytes;
      if f.byteOffset + n > |data| then AgentRaw(f, data) == Rejected
      else AgentRaw(f, data)
           == Number(if f.dataType.Signed? then SignedValue(SliceValue(f, data, n), n) else SliceValue(f, data, n))
  {
    if f.byteOffset + f.dataType.bytes <= |data| {
      PlainNumber(f, data);
    }
    hide SliceValue, SignedValue, AgentNumber, BigEndian, InOrder;
  }

  /** A byte field reads the length and the sign it states, between one byte and eight. */
  lemma ByteFieldsRead(f: Field, data: seq<Byte>)
    requires f.dataType.Bytes? && IsPlain(f) && NamesAnOrder(f)
    ensures match f.length
            case None => AgentRaw(f, data) == Rejected
            case Some(n) =>
              if !(1 <= n <= 8) || f.byteOffset + n > |data| then AgentRaw(f, data) == Rejected
              else AgentRaw(f, data) == Number(if f.signed then SignedValue(SliceValue(f, data, n), n) else SliceValue(f, data, n))
  {
    if f.length.Some? && 1 <= f.length.value <= 8 && f.byteOffset + f.length.value <= |data| {
      PlainNumber(f, data);
    }
    hide SliceValue, SignedValue, AgentNumber, BigEndian, InOrder;
  }

  /** Any other byte order is refused. */
  lemma UnknownOrderIsRefused(f: Field, data: seq<Byte>)
    requires !f.dataType.Flag? && !NamesAnOrder(f)
    ensures AgentRaw(f, data) == Rejected
  {
    hide AgentNumber, AgentSlices, AgentLength, BigEndian, InOrder, Pow2, And;
  }

  /** A switch is one bit of one byte, for both decoders. */
  lemma SwitchesReadOneBit(f: Field, data: seq<Byte>)
    requires f.dataType.Flag?
    ensures AgentRaw(f, data) == PythonRaw(f, data)
    ensures if f.byteOffset < |data| && 0 <= f.bit <= 7 then AgentRaw(f, data) == Switch(Bit(data[f.byteOffset], f.bit) == 1)
            else AgentRaw(f, data) == Rejected
  {
    if f.byteOffset < |data| && 0 <= f.bit <= 7 {
      SingleBit(data[f.byteOffset], f.bit);
    }
    hide And, Pow2, Bit;
  }

  lemma {:induction false} SingleBit(n: nat, i: nat)
    ensures And(n, Pow2(i)) != 0 <==> Bit(n, i) == 1
  {
    AndUnfolds(n, Pow2(i));
    BitHalves(n, i);
    if i == 0 {
      assert Pow2(0) == 1;
      hide Bit, ShiftRight;
      AndCommutesWithNone(n / 2);
    } else {
      assert Pow2(i) / 2 == Pow2(i - 1) && Pow2(i) % 2 == 0;
      hide And, Pow2, Bit;
      SingleBit(n / 2, i - 1);
    }
  }

  lemma {:induction false} AndCommutesWithNone(n: nat)
    ensures And(n, 0) == 0
  {
    if n > 0 {
      AndCommutesWithNone(n / 2);
    }
  }

  lemma MaskedNumber(f: Field, data: seq<Byte>)
    requires !f.dataType.Flag? && !IsSigned(f) && NamesAnOrder(f) && AgentSlices(f, data) && f.mask.Some?
    ensures AgentRaw(f, data) == Number(ShiftRight(And(SliceValue(f, data, AgentLength(f)), f.mask.value), f.shift))
  {
    SlicedValue(f, data);
    hide BigEndian, InOrder, SliceValue, And, ShiftRight;
  }

  /** A masked and shifted unsigned field has exactly the mask's bits of the slice, moved down. */
  lemma MaskedBits(f: Field, data: seq<Byte>, i: nat)
    requires !f.dataType.Flag? && !IsSigned(f) && NamesAnOrder(f) && AgentSlices(f, data) && f.mask.Some?
    ensures AgentRaw(f, data).Number? && AgentRaw(f, data).n >= 0
    ensures Bit(AgentRaw(f, data).n, i) == Bit(SliceValue(f, data, AgentLength(f)), i + f.shift) * Bit(f.mask.value, i + f.shift)
  {
    var u := SliceValue(f, data, AgentLength(f));
    MaskedNumber(f, data);
    hide *;
    AndAndOrAreBitwise(u, f.mask.value, i + f.shift);
    ShiftMovesBits(And(u, f.mask.value), f.shift, i);
  }

  lemma ShiftMovesBits(n: nat, shift: nat, i: nat)
    ensures Bit(ShiftRight(n, shift), i) == Bit(n, i + shift)
  {
    ShiftsAddUp(n, shift, i);
    hide ShiftRight;
  }

  lemma ShiftsAddUp(n: nat, j: nat, k: nat)
    ensures ShiftRight(ShiftRight(n, j), k) == ShiftRight(n, j + k)
  {
    hide Pow2, ShiftRight;
    var p := ShiftRight(n, j);
    var q := ShiftRight(p, k);
    Pow2Adds(j, k);
    var d, e := Pow2(j), Pow2(k);
    assert q * e <= p < q * e + e;
    MulMono(q * e, p, d);
    MulMono(p + 1, q * e + e, d);
    Regroup(q, e, d);
    OneMore(p, d);
    Distributes(q * e, e, d);
    assert d * e == e * d;
    ShiftIs(n, j + k, q);
  }

  lemma Regroup(q: nat, e: nat, d: nat)
    ensures (q * e) * d == q * (d * e)
  {
    TimesRegroups(q, e, d);
    assert e * d == d * e;
  }

  /** Reversing a frame exchanges the two orders. */
  lemma {:induction false} OrdersExchange(data: seq<Byte>)
    ensures SumFromBig(Reversed(data), 0, |data|) == SumFromLittle(data, 0, |data|)
  {
    BigEndianIsSum(Reversed(data), 0, |data|);
    ReversedIsSum(data, 0, |data|);
    assert Reversed(data)[0..|data|] == Reversed(data) && data[0..|data|] == data;
  }

  /** Two bytes, most significant first. */
  lemma TwoBytes(data: seq<Byte>, first: nat, second: nat)
    requires |data| >= 2 && data[0] == first && data[1] == second
    ensures AgentRaw(Field(Unsigned(2), 0, None, false, Some("big"), 0, None, 0), data) == Number(256 * first + second)
    ensures AgentRaw(Field(Unsigned(2), 0, None, false, Some("little"), 0, None, 0), data) == Number(first + 256 * second)
  {
    var big := Field(Unsigned(2), 0, None, false, Some("big"), 0, None, 0);
    IntegersRead(big, data);
    IntegersRead(big.(endianness := Some("little")), data);
    assert Power256(0) == 1 && Power256(1) == 256;
    assert SumFromBig(data, 1, 1) == second && SumFromLittle(data, 0, 1) == first;
    hide AgentRaw;
  }
}
