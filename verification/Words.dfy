/**
 The machine words behind the model: how a hash word and a value word are packed into
 64 bits in each mode of the table, and the bit trick that rounds up to a power of two.
 */
module Words {
  import opened MapSpec

  const TOP: bv64 := 0x8000_0000_0000_0000

  /** The marking bit: FROZEN in a hash word, SEALED in a value word; the lowest or the highest bit. */
  predicate IsMark(bit: bv64) {
    bit == 1 || bit == TOP
  }

  /** A word without its mark, and whether it is marked. */
  datatype Word = Word(body: bv64, marked: bool)

  function Decode(w: bv64, bit: bv64): Word {
    Word(w & !bit, w & bit != 0)
  }

  function Encode(x: Word, bit: bv64): bv64 {
    if x.marked then x.body | bit else x.body
  }

  predicate HashIsValid(w: bv64, bit: bv64) {
    w != 0 && w & !(!bit) == 0
  }

  predicate ValueIsValid(w: bv64, bit: bv64, tomb: bv64) {
    w != 0 && w & bit == 0 && w != tomb
  }

  /** Even values are sealed with bit 0 and removed with INTPTR_MIN, positive ones with the top bit and INTPTR_MAX. */
  predicate IsValueMode(bit: bv64, tomb: bv64) {
    (bit == 1 && tomb == TOP) || (bit == TOP && tomb == TOP - 1)
  }

  // -------------------------------------------------------------------- bits

  lemma LowBit(w: bv64)
    ensures w & 1 == 0 || w & 1 == 1
  {
  }

  lemma TopBit(w: bv64)
    ensures w & TOP == 0 || w & TOP == TOP
  {
  }

  /** One bit is clear or set. */
  lemma OneBit(w: bv64, bit: bv64)
    requires IsMark(bit)
    ensures w & bit == 0 || w & bit == bit != 0
  {
    if bit == 1 { LowBit(w); } else { TopBit(w); }
  }

  lemma Parts(w: bv64, bit: bv64)
    ensures (w & !bit) | (w & bit) == w
  {
  }

  lemma Without(w: bv64, bit: bv64)
    requires w & bit == 0
    ensures w & !bit == w
  {
  }

  lemma SetBit(w: bv64, bit: bv64)
    ensures (w | bit) & !bit == w & !bit && (w | bit) & bit == bit
  {
  }

  lemma Complement(bit: bv64)
    ensures !(!bit) == bit
  {
  }

  lemma MarkedRoundTrip(w: bv64, bit: bv64)
    requires w & bit == bit != 0
    ensures Encode(Decode(w, bit), bit) == w
  {
    Parts(w, bit);
  }

  lemma PlainRoundTrip(w: bv64, bit: bv64)
    requires w & bit == 0
    ensures Encode(Decode(w, bit), bit) == w
  {
    Without(w, bit);
  }

  // ------------------------------------------------------------------- words

  lemma RoundTrip(w: bv64, bit: bv64)
    requires IsMark(bit)
    ensures Encode(Decode(w, bit), bit) == w
  {
    OneBit(w, bit);
    if w & bit == 0 { PlainRoundTrip(w, bit); } else { MarkedRoundTrip(w, bit); }
  }

  /** Two words are the same word exactly if they carry the same: a compare-and-swap compares what the model compares. */
  lemma WordsDiffer(w: bv64, x: bv64, bit: bv64)
    requires IsMark(bit)
    ensures w == x <==> Decode(w, bit) == Decode(x, bit)
  {
    RoundTrip(w, bit);
    RoundTrip(x, bit);
  }

  /** Freezing and sealing mark a word and leave its body; the legal hashes are the unfrozen ones but 0. */
  lemma MarkKeepsBody(w: bv64, bit: bv64)
    requires IsMark(bit)
    ensures Decode(w | bit, bit) == Decode(w, bit).(marked := true)
    ensures HashIsValid(w, bit) <==> Decode(w, bit).body != 0 && !Decode(w, bit).marked
  {
    SetBit(w, bit);
    Complement(bit);
    if w & bit == 0 { Without(w, bit); }
  }

  /** The legal values are unsealed, and neither "never set" nor "removed". */
  lemma ValidIsLive(w: bv64, bit: bv64, tomb: bv64)
    ensures ValueIsValid(w, bit, tomb) <==>
              Decode(w, bit).body != 0 && Decode(w, bit).body != tomb && !Decode(w, bit).marked
  {
    if w & bit == 0 { Without(w, bit); }
  }

  /** "Removed" is never mistaken for "never set", sealed or not. */
  lemma TombIsPlain(bit: bv64, tomb: bv64)
    requires IsValueMode(bit, tomb)
    ensures Decode(tomb, bit) == Word(tomb, false) && tomb != 0 && IsMark(bit)
  {
    assert TOP & !1 == TOP && TOP & 1 == 0;
    assert (TOP - 1) & !TOP == TOP - 1 && (TOP - 1) & TOP == 0;
  }

  /** The words of the machines, as the machine words that carry them. */
  ghost function HashOf(w: bv64, bit: bv64): HashWord {
    HashWord(Decode(w, bit).body as nat, Decode(w, bit).marked)
  }

  ghost function ValueOf(w: bv64, bit: bv64, tomb: bv64): ValueWord {
    var x := Decode(w, bit);
    ValueWord(if x.body == 0 then Empty else if x.body == tomb then Tomb else Live(x.body as nat), x.marked)
  }

  lemma NumberIsZero(w: bv64)
    ensures w as nat == 0 <==> w == 0
  {
  }

  /** The argument checks of the code accept the requests that the machines serve, and no others. */
  lemma ChecksAgree(hash: bv64, hashBit: bv64, value: bv64, valueBit: bv64, tomb: bv64)
    requires IsMark(hashBit)
    ensures var key, val := HashOf(hash, hashBit), ValueOf(value, valueBit, tomb);
            && (HashIsValid(hash, hashBit) <==> Legal(Lookup(key)))
            && (HashIsValid(hash, hashBit) && ValueIsValid(value, valueBit, tomb) <==> Legal(Insert(key, val)))
            && Legal(Register(key, val)) == Legal(Remove(key, val)) == Legal(Insert(key, val))
  {
    MarkKeepsBody(hash, hashBit);
    ValidIsLive(value, valueBit, tomb);
    NumberIsZero(Decode(hash, hashBit).body);
  }

  // ---------------------------------------------------------- powers of two

  /** `0` counts as a power of two here. */
  predicate IsPow2Word(x: bv64) {
    x & (!x + 1) == x
  }

  function Smear(v: bv64): bv64 {
    var a := v | (v >> 1);
    var b := a | (a >> 2);
    var c := b | (b >> 4);
    var d := c | (c >> 8);
    var e := d | (d >> 16);
    e | (e >> 32)
  }

  function RoundUp(v: bv64): bv64 {
    var r := Smear(v - 1) + 1;
    if r != 0 then r else 1
  }

  /** Smearing fills all bits from the highest one down: one less than a power of two. */
  lemma SmearIsOnes(v: bv64)
    ensures Smear(v) & (Smear(v) + 1) == 0
  {
  }

  lemma OnesPlusOne(s: bv64)
    requires s & (s + 1) == 0
    ensures IsPow2Word(s + 1)
  {
  }

  /** The bit trick gives a power of two. */
  lemma RoundUpIsPow2(v: bv64)
    requires 1 <= v <= TOP
    ensures IsPow2Word(RoundUp(v))
  {
    SmearIsOnes(v - 1);
    OnesPlusOne(Smear(v - 1));
  }

  /** It is greater than everything below its argument. */
  lemma RoundUpIsEnough(below: bv64)
    requires below < TOP
    ensures RoundUp(below + 1) > below
  {
  }

  /** Half of it would be too small. */
  lemma RoundUpIsTight(below: bv64)
    requires 1 <= below < TOP
    ensures RoundUp(below + 1) >> 1 <= below
  {
  }

  lemma RoundUpOfOne()
    ensures RoundUp(1) == 1
  {
  }

  /** So it gives the least power of two that is not below its argument. */
  lemma RoundUpIsLeast(below: bv64, q: bv64)
    requires below < TOP && IsPow2Word(q) && q > below
    ensures RoundUp(below + 1) <= q
  {
    if below == 0 {
      RoundUpOfOne();
    } else {
      RoundUpIsLeastAbove(below, q);
    }
  }

  lemma RoundUpIsLeastAbove(below: bv64, q: bv64)
    requires 1 <= below < TOP && IsPow2Word(q) && q > below
    ensures RoundUp(below + 1) <= q
  {
    RoundUpIsTight(below);
    if RoundUp(below + 1) > q {
      RoundUpIsPow2(below + 1);
      Pow2WordGap(RoundUp(below + 1), q);
    }
  }

  lemma Pow2WordGap(r: bv64, q: bv64)
    requires IsPow2Word(r) && IsPow2Word(q) && r > q != 0
    ensures q <= r >> 1
  {
  }

  /** Above the largest power of two the trick wraps to 1: the callers have to guard. */
  lemma RoundUpWraps(v: bv64)
    requires v > TOP || v == 0
    ensures RoundUp(v) == 1
  {
  }

  /** `index & mask` is below the size and differs from the index by whole multiples of the size. */
  lemma MaskIsRemainder(index: bv64, size: bv64)
    requires size != 0 && IsPow2Word(size)
    ensures index & (size - 1) < size
    ensures (index & (size - 1)) + (index & !(size - 1)) == index && (index & !(size - 1)) & (size - 1) == 0
  {
  }
}
