/** Addresses, byte-addressed process memory, and the two ptrace word requests.

    PTRACE_PEEKDATA and PTRACE_POKEDATA move eight bytes at any alignment, lowest
    byte first.  They fail as a whole when one of the eight bytes is not mapped:
    the read then yields -1 (all ones) and the write changes nothing. */
module Memory {
  type Byte = bv8
  type Word = bv64

  /** The mapped addresses and their bytes. */
  type Mem = map<int, Byte>

  const ADDRESS_SPACE: int := 0x1_0000_0000_0000_0000

  type Addr = a: int | 0 <= a < ADDRESS_SPACE

  const INT3: Byte := 0xCC
  const READ_FAILED: Word := 0xFFFF_FFFF_FFFF_FFFF

  /** The 64-bit result of one addition or subtraction on uintptr_t. */
  function Wrap(a: int): (r: Addr)
    requires -ADDRESS_SPACE <= a < 2 * ADDRESS_SPACE
  {
    if a < 0 then a + ADDRESS_SPACE else if a < ADDRESS_SPACE then a else a - ADDRESS_SPACE
  }

  datatype Bytes = Bytes(b0: Byte, b1: Byte, b2: Byte, b3: Byte, b4: Byte, b5: Byte, b6: Byte, b7: Byte)

  function Split(w: Word): Bytes {
    Bytes((w & 0xFF) as Byte, ((w >> 8) & 0xFF) as Byte, ((w >> 16) & 0xFF) as Byte, ((w >> 24) & 0xFF) as Byte,
          ((w >> 32) & 0xFF) as Byte, ((w >> 40) & 0xFF) as Byte, ((w >> 48) & 0xFF) as Byte,
          ((w >> 56) & 0xFF) as Byte)
  }

  function Join(b: Bytes): Word {
    (b.b0 as Word) | (b.b1 as Word << 8) | (b.b2 as Word << 16) | (b.b3 as Word << 24) |
    (b.b4 as Word << 32) | (b.b5 as Word << 40) | (b.b6 as Word << 48) | (b.b7 as Word << 56)
  }

  /** All eight bytes of the word at `a` are mapped. */
  predicate Readable(mapped: set<int>, a: int) {
    forall x :: a <= x < a + 8 ==> x in mapped
  }

  function Load(m: Mem, a: int): Bytes
    requires Readable(m.Keys, a)
  {
    Bytes(m[a], m[a + 1], m[a + 2], m[a + 3], m[a + 4], m[a + 5], m[a + 6], m[a + 7])
  }

  function Store(m: Mem, a: int, b: Bytes): Mem {
    m[a := b.b0][a + 1 := b.b1][a + 2 := b.b2][a + 3 := b.b3]
     [a + 4 := b.b4][a + 5 := b.b5][a + 6 := b.b6][a + 7 := b.b7]
  }

  function Peek(m: Mem, a: int): Word {
    if Readable(m.Keys, a) then Join(Load(m, a)) else READ_FAILED
  }

  /** A word of memory taken as an address, -1 when it cannot be read. */
  function Pointer(m: Mem, a: Addr): (p: Addr) {
    Peek(m, a) as int
  }

  /** The word above a frame pointer. */
  function ReturnAddress(m: Mem, fp: Addr): Addr {
    Pointer(m, Wrap(fp + 8))
  }

  function Poke(m: Mem, a: int, w: Word): Mem {
    if Readable(m.Keys, a) then Store(m, a, Split(w)) else m
  }

  /** The byte a patch displaces, as the low byte of a peeked word. */
  function ByteAt(m: Mem, a: int): Byte {
    if Readable(m.Keys, a) then m[a] else 0xFF
  }

  /** Memory with one byte replaced, if the eight-byte window there can be written. */
  function WithByte(m: Mem, a: int, b: Byte): Mem {
    if Readable(m.Keys, a) then m[a := b] else m
  }

  /** Replacing the lowest byte of a word. */
  function WithLowByte(w: Word, b: Byte): Word {
    (w & !0xFF) | (b as Word)
  }

  function LowByte(w: Word): Byte {
    (w & 0xFF) as Byte
  }

  lemma LowByteOfJoin(b: Bytes, low: Byte)
    ensures Split(WithLowByte(Join(b), low)) == b.(b0 := low)
    ensures LowByte(Join(b)) == b.b0
  {
  }

  lemma LowByteOfFailedRead()
    ensures LowByte(READ_FAILED) == 0xFF
  {
  }

  lemma StoreOneByte(m: Mem, a: int, b: Byte)
    requires Readable(m.Keys, a)
    ensures Store(m, a, Load(m, a).(b0 := b)) == m[a := b]
  {
  }

  /** The read-modify-write of an unaligned word touches its lowest byte only,
      whatever the seven bytes above it hold. */
  lemma ReadModifyWriteIsOneByte(m: Mem, a: int, b: Byte)
    ensures Poke(m, a, WithLowByte(Peek(m, a), b)) == WithByte(m, a, b)
    ensures LowByte(Peek(m, a)) == ByteAt(m, a)
  {
    if Readable(m.Keys, a) {
      LowByteOfJoin(Load(m, a), b);
      StoreOneByte(m, a, b);
    } else {
      LowByteOfFailedRead();
    }
  }

  // ----- what words and addresses are

  lemma WrapIsModulo(a: int)
    requires -ADDRESS_SPACE <= a < 2 * ADDRESS_SPACE
    ensures Wrap(a) == a % ADDRESS_SPACE
  {
    if a < 0 {
      assert a % ADDRESS_SPACE == (a + ADDRESS_SPACE) % ADDRESS_SPACE;
    }
  }

  predicate ShiftsIn(high: Word, low: Byte, all: Word) {
    all == (high << 8) | (low as Word)
  }

  /** Shifting in a byte is multiplying by 256 and adding it. */
  lemma ShiftValue(high: Word, low: Byte, all: Word)
    requires high as int < 0x100_0000_0000_0000 && ShiftsIn(high, low, all)
    ensures all as int == 256 * high as int + low as int
  {
  }

  lemma FourShifts(b0: Byte, b1: Byte, b2: Byte, b3: Byte, w4: Word, w3: Word, w2: Word, w1: Word, w0: Word)
    requires w4 as int < 0x1_0000_0000
    requires ShiftsIn(w4, b3, w3) && ShiftsIn(w3, b2, w2) && ShiftsIn(w2, b1, w1) && ShiftsIn(w1, b0, w0)
    ensures w0 as int == b0 as int + 256 * (b1 as int + 256 * (b2 as int + 256 * (b3 as int + 256 * w4 as int)))
  {
    hide *;
    ShiftValue(w4, b3, w3);
    ShiftValue(w3, b2, w2);
    ShiftValue(w2, b1, w1);
    ShiftValue(w1, b0, w0);
  }

  predicate UpperHalf(b: Bytes, w4: Word) {
    w4 == (b.b4 as Word) | (b.b5 as Word << 8) | (b.b6 as Word << 16) | (b.b7 as Word << 24)
  }

  lemma UpperShifts(b: Bytes) returns (w7: Word, w6: Word, w5: Word, w4: Word)
    ensures ShiftsIn(0, b.b7, w7) && ShiftsIn(w7, b.b6, w6) && ShiftsIn(w6, b.b5, w5) && ShiftsIn(w5, b.b4, w4)
    ensures UpperHalf(b, w4)
  {
    w7 := b.b7 as Word;
    w6 := (w7 << 8) | (b.b6 as Word);
    w5 := (w6 << 8) | (b.b5 as Word);
    w4 := (w5 << 8) | (b.b4 as Word);
  }

  lemma LowerShifts(b: Bytes, w4: Word) returns (w3: Word, w2: Word, w1: Word)
    requires UpperHalf(b, w4)
    ensures ShiftsIn(w4, b.b3, w3) && ShiftsIn(w3, b.b2, w2) && ShiftsIn(w2, b.b1, w1) && ShiftsIn(w1, b.b0, Join(b))
  {
    w3 := (w4 << 8) | (b.b3 as Word);
    w2 := (w3 << 8) | (b.b2 as Word);
    w1 := (w2 << 8) | (b.b1 as Word);
  }

  lemma UpperIsSum(b: Bytes) returns (w4: Word)
    ensures UpperHalf(b, w4)
    ensures w4 as int == b.b4 as int + 256 * (b.b5 as int + 256 * (b.b6 as int + 256 * b.b7 as int))
  {
    hide *;
    var w7, w6, w5, w := UpperShifts(b);
    FourShifts(b.b4, b.b5, b.b6, b.b7, 0, w7, w6, w5, w);
    w4 := w;
  }

  lemma LowerIsSum(b: Bytes, w4: Word)
    requires UpperHalf(b, w4) && w4 as int < 0x1_0000_0000
    ensures Join(b) as int ==
      b.b0 as int + 256 * (b.b1 as int + 256 * (b.b2 as int + 256 * (b.b3 as int + 256 * w4 as int)))
  {
    hide *;
    var w3, w2, w1 := LowerShifts(b, w4);
    FourShifts(b.b0, b.b1, b.b2, b.b3, w4, w3, w2, w1, Join(b));
  }

  /** A word is the sum of its bytes' place values, the lowest first. */
  lemma JoinIsSum(b: Bytes)
    ensures Join(b) as int ==
      b.b0 as int + 256 * (b.b1 as int + 256 * (b.b2 as int + 256 * (b.b3 as int +
      256 * (b.b4 as int + 256 * (b.b5 as int + 256 * (b.b6 as int + 256 * b.b7 as int))))))
  {
    hide *;
    var w4 := UpperIsSum(b);
    LowerIsSum(b, w4);
  }

  /** A peek reads the byte at the address as the lowest place, and the seven behind it as the higher ones. */
  lemma PeekIsSum(m: Mem, a: int)
    requires Readable(m.Keys, a)
    ensures Peek(m, a) as int ==
      m[a] as int + 256 * (m[a + 1] as int + 256 * (m[a + 2] as int + 256 * (m[a + 3] as int +
      256 * (m[a + 4] as int + 256 * (m[a + 5] as int + 256 * (m[a + 6] as int + 256 * m[a + 7] as int))))))
  {
    JoinIsSum(Load(m, a));
  }
}
