/** Tagged pointers on 64-bit platforms: the words of the two-word form, which packs an
    allocated pointer, a pointer, 32 data bits and a flag into two machine words
    (include/tagged_ptr_impl.h:653-812). Everything here is about single words; `low` is
    the number of unused low bits of an allocated pointer, `nf` the number of flags. */
module TaggedWords {
  type Word = bv64

  /** Bits a user-space pointer may occupy, and the 16 above them. */
  const PTR_MASK: Word := 0x0000_FFFF_FFFF_FFFF
  const UPPER_MASK: Word := 0xFFFF_0000_0000_0000
  const MAX_DATA: Word := 0xFFFF_FFFF

  predicate Sizes(low: Word, nf: Word) { 2 <= low <= 16 && nf <= 1 }

  function ZombieMark(low: Word): Word
    requires low <= 16
  {
    1 << low
  }

  function AllocMask(low: Word): Word
    requires low <= 16
  {
    ((1 << (48 - low)) - 1) << low
  }

  function FlagsMask(nf: Word): Word
    requires nf <= 1
  {
    (1 << nf) - 1
  }

  function LowerPartMask(low: Word, nf: Word): Word
    requires Sizes(low, nf)
  {
    ((1 << (low - nf)) - 1) << 16
  }

  function UpperPartMask(low: Word, nf: Word): Word
    requires Sizes(low, nf)
  {
    (0xFFFF as Word) << (16 + low - nf)
  }

  /** Low bits of the allocated pointer that hold data. */
  function MiddleMask(low: Word, nf: Word): Word
    requires Sizes(low, nf)
  {
    ((1 << (low - nf)) - 1) << nf
  }

  /** The bits of x in field m. */
  function Field(x: Word, m: Word): Word { x & m }

  /** get_data: three ranges of bits, reassembled. */
  function Gather(ptr: Word, alloc: Word, low: Word, nf: Word): Word
    requires Sizes(low, nf)
  {
    Joined(FromUpper(alloc, nf), FromPtr(ptr), FromMiddle(alloc, low, nf))
  }

  function FromUpper(alloc: Word, nf: Word): Word
    requires nf <= 1
  {
    Field(alloc, UPPER_MASK) >> (32 - nf)
  }

  function FromPtr(ptr: Word): Word { Field(ptr, UPPER_MASK) >> 48 }

  function FromMiddle(alloc: Word, low: Word, nf: Word): Word
    requires Sizes(low, nf)
  {
    Field(alloc, MiddleMask(low, nf)) << (16 - nf)
  }

  function Joined(upper: Word, lowest: Word, middle: Word): Word { upper | lowest | middle }

  function PtrPart(data: Word): Word { (data & 0xFFFF) << 48 }

  function UpperPart(data: Word, low: Word, nf: Word): Word
    requires Sizes(low, nf)
  {
    ((data & UpperPartMask(low, nf)) >> (16 + nf)) << 48
  }

  function LowerPart(data: Word, low: Word, nf: Word): Word
    requires Sizes(low, nf)
  {
    ((data & LowerPartMask(low, nf)) >> 16) << nf
  }

  /** set_data: the same three ranges, written with other shifts. */
  function ScatterPtr(ptr: Word, data: Word): Word {
    (ptr & PTR_MASK) | PtrPart(data)
  }

  function ScatterAlloc(alloc: Word, data: Word, low: Word, nf: Word): Word
    requires Sizes(low, nf)
  {
    (alloc & (AllocMask(low) | FlagsMask(nf))) | UpperPart(data, low, nf) | LowerPart(data, low, nf)
  }

  /** set_ptr. */
  function ReplacePtr(ptr: Word, p: Word): Word { (ptr & UPPER_MASK) | (p & PTR_MASK) }

  /** set_allocated_ptr. */
  function ReplaceAlloc(alloc: Word, a: Word, low: Word): Word
    requires low <= 16
  {
    Replace(alloc, a, AllocMask(low))
  }

  function Replace(x: Word, y: Word, m: Word): Word { (x & !m) | (y & m) }

  /** set_flag, unset_flag at position 0. */
  function PutFlag(alloc: Word, on: bool): Word {
    if on then alloc | 1 else alloc & !1
  }

  // ---------------------------------------------------------------- fields of a word

  predicate Disjoint(m: Word, k: Word) { m & k == 0 }

  /** u has bits in field m only. */
  predicate Within(u: Word, m: Word) { u & m == u }

  /** x and y have the same bits in field m. */
  predicate Agree(x: Word, y: Word, m: Word) { Field(x, m) == Field(y, m) }

  lemma MasksDisjoint(low: Word, nf: Word)
    requires Sizes(low, nf)
    ensures Disjoint(AllocMask(low), UPPER_MASK) && Disjoint(FlagsMask(nf), UPPER_MASK)
    ensures Disjoint(AllocMask(low), MiddleMask(low, nf)) && Disjoint(FlagsMask(nf), MiddleMask(low, nf))
    ensures Disjoint(AllocMask(low), FlagsMask(nf)) && Disjoint(MiddleMask(low, nf), UPPER_MASK)
  {
  }

  lemma Commutes(m: Word, k: Word)
    ensures Disjoint(m, k) == Disjoint(k, m)
  {
  }

  lemma ReplacedAt(x: Word, y: Word, m: Word)
    ensures Agree(Replace(x, y, m), y, m)
  {
  }

  lemma ReplacedElsewhere(x: Word, y: Word, m: Word, k: Word)
    requires Disjoint(m, k)
    ensures Agree(Replace(x, y, m), x, k)
  {
  }

  /** The word of a set_data: kept fields, and two parts in fields of their own. */
  function Composed(x: Word, keep: Word, also: Word, u: Word, v: Word): Word { (x & (keep | also)) | u | v }

  lemma ComposedPart(x: Word, keep: Word, also: Word, u: Word, v: Word, um: Word, vm: Word)
    requires Disjoint(keep, um) && Disjoint(also, um) && Within(u, um) && Within(v, vm) && Disjoint(vm, um)
    ensures Composed(x, keep, also, u, v) & um == u
  {
    assert x & (keep | also) & um == 0;
    assert v & um == 0;
  }

  lemma ComposedSwap(x: Word, keep: Word, also: Word, u: Word, v: Word)
    ensures Composed(x, keep, also, u, v) == Composed(x, keep, also, v, u) == Composed(x, also, keep, u, v)
  {
  }

  lemma WithinMeansDisjoint(u: Word, um: Word, k: Word)
    requires Within(u, um) && Disjoint(k, um)
    ensures Disjoint(u, k)
  {
  }

  lemma ComposedKept(x: Word, keep: Word, also: Word, u: Word, v: Word)
    requires Disjoint(u, keep) && Disjoint(v, keep)
    ensures Agree(Composed(x, keep, also, u, v), x, keep)
  {
  }

  /** The parts land inside their fields, and come back from them. */
  lemma UpperPartLands(data: Word, low: Word, nf: Word)
    requires Sizes(low, nf) && data <= MAX_DATA
    ensures Within(UpperPart(data, low, nf), UPPER_MASK)
    ensures UpperPart(data, low, nf) >> (32 - nf) == data & UpperPartMask(low, nf)
  {
  }

  lemma LowerPartLands(data: Word, low: Word, nf: Word)
    requires Sizes(low, nf)
    ensures Within(LowerPart(data, low, nf), MiddleMask(low, nf))
    ensures LowerPart(data, low, nf) << (16 - nf) == data & LowerPartMask(low, nf)
  {
  }

  lemma PtrPartLands(ptr: Word, data: Word)
    ensures (ScatterPtr(ptr, data) & UPPER_MASK) >> 48 == data & 0xFFFF
    ensures Agree(ScatterPtr(ptr, data), ptr, PTR_MASK)
  {
  }

  lemma PartsCover(data: Word, low: Word, nf: Word)
    requires Sizes(low, nf) && data <= MAX_DATA
    ensures (data & UpperPartMask(low, nf)) | (data & 0xFFFF) | (data & LowerPartMask(low, nf)) == data
  {
  }

  // ---------------------------------------------------------------- field independence

  lemma ScatterComposes(alloc: Word, data: Word, low: Word, nf: Word)
    requires Sizes(low, nf)
    ensures ScatterAlloc(alloc, data, low, nf)
         == Composed(alloc, AllocMask(low), FlagsMask(nf), UpperPart(data, low, nf), LowerPart(data, low, nf))
  {
    hide UpperPart, LowerPart, AllocMask, FlagsMask;
  }

  /** set_data puts its parts where get_data looks for them, and leaves allocated pointer
      and flags alone. */
  lemma PartsPlaced(alloc: Word, data: Word, low: Word, nf: Word)
    requires Sizes(low, nf) && data <= MAX_DATA
    ensures ScatterAlloc(alloc, data, low, nf) & UPPER_MASK == UpperPart(data, low, nf)
    ensures ScatterAlloc(alloc, data, low, nf) & MiddleMask(low, nf) == LowerPart(data, low, nf)
    ensures Agree(ScatterAlloc(alloc, data, low, nf), alloc, AllocMask(low))
    ensures Agree(ScatterAlloc(alloc, data, low, nf), alloc, FlagsMask(nf))
  {
    hide UpperPart, LowerPart, AllocMask, FlagsMask, MiddleMask, ScatterAlloc, Composed, Disjoint, Within, Agree;
    MasksDisjoint(low, nf);
    UpperPartLands(data, low, nf);
    LowerPartLands(data, low, nf);
    var am, fm, mm := AllocMask(low), FlagsMask(nf), MiddleMask(low, nf);
    var u, v := UpperPart(data, low, nf), LowerPart(data, low, nf);
    Commutes(mm, UPPER_MASK);
    ScatterComposes(alloc, data, low, nf);
    ComposedSwap(alloc, am, fm, u, v);
    ComposedPart(alloc, am, fm, u, v, UPPER_MASK, mm);
    ComposedPart(alloc, am, fm, v, u, mm, UPPER_MASK);
    WithinMeansDisjoint(u, UPPER_MASK, am);
    WithinMeansDisjoint(v, mm, am);
    ComposedKept(alloc, am, fm, u, v);
    WithinMeansDisjoint(u, UPPER_MASK, fm);
    WithinMeansDisjoint(v, mm, fm);
    ComposedKept(alloc, fm, am, u, v);
  }

  /** Every 32-bit value survives set_data and get_data. */
  lemma GatherScatter(ptr: Word, alloc: Word, data: Word, low: Word, nf: Word)
    requires 2 <= low <= 16 && nf <= 1 && data <= MAX_DATA
    ensures Gather(ScatterPtr(ptr, data), ScatterAlloc(alloc, data, low, nf), low, nf) == data
  {
    hide UpperPart, LowerPart, AllocMask, FlagsMask, MiddleMask, ScatterAlloc, ScatterPtr, UpperPartMask, LowerPartMask,
         Within, Agree;
    PartsPlaced(alloc, data, low, nf);
    UpperPartLands(data, low, nf);
    LowerPartLands(data, low, nf);
    PtrPartLands(ptr, data);
    PartsCover(data, low, nf);
  }

  lemma UpperReads(x: Word, y: Word, nf: Word)
    requires nf <= 1 && Agree(x, y, UPPER_MASK)
    ensures FromUpper(x, nf) == FromUpper(y, nf) && FromPtr(x) == FromPtr(y)
  {
    hide Field;
  }

  lemma MiddleReads(x: Word, y: Word, low: Word, nf: Word)
    requires Sizes(low, nf) && Agree(x, y, MiddleMask(low, nf))
    ensures FromMiddle(x, low, nf) == FromMiddle(y, low, nf)
  {
    hide Field, MiddleMask;
  }

  /** get_data only looks at the upper bits of both words and the middle of the second. */
  lemma GatherReads(ptr: Word, alloc: Word, ptr': Word, alloc': Word, low: Word, nf: Word)
    requires Sizes(low, nf) && Agree(ptr, ptr', UPPER_MASK)
    requires Agree(alloc, alloc', UPPER_MASK) && Agree(alloc, alloc', MiddleMask(low, nf))
    ensures Gather(ptr, alloc, low, nf) == Gather(ptr', alloc', low, nf)
  {
    hide MiddleMask, Agree, Joined, FromUpper, FromPtr, FromMiddle;
    UpperReads(alloc, alloc', nf);
    UpperReads(ptr, ptr', nf);
    MiddleReads(alloc, alloc', low, nf);
  }

  /** set_allocated_ptr leaves data and flags alone. */
  lemma ReplaceAllocKeeps(ptr: Word, alloc: Word, a: Word, low: Word, nf: Word)
    requires Sizes(low, nf)
    ensures Agree(ReplaceAlloc(alloc, a, low), a, AllocMask(low))
    ensures Agree(ReplaceAlloc(alloc, a, low), alloc, FlagsMask(nf))
    ensures Gather(ptr, ReplaceAlloc(alloc, a, low), low, nf) == Gather(ptr, alloc, low, nf)
  {
    hide AllocMask, FlagsMask, MiddleMask, Replace, Disjoint, Agree, Gather;
    MasksDisjoint(low, nf);
    var am := AllocMask(low);
    ReplacedAt(alloc, a, am);
    ReplacedElsewhere(alloc, a, am, FlagsMask(nf));
    ReplacedElsewhere(alloc, a, am, UPPER_MASK);
    ReplacedElsewhere(alloc, a, am, MiddleMask(low, nf));
    AgreeSelf(ptr, UPPER_MASK);
    GatherReads(ptr, Replace(alloc, a, am), ptr, alloc, low, nf);
  }

  lemma AgreeSelf(x: Word, m: Word)
    ensures Agree(x, x, m)
  {
  }

  lemma ReplacePtrIs(ptr: Word, p: Word)
    ensures ReplacePtr(ptr, p) == Replace(ptr, p, PTR_MASK)
  {
  }

  /** set_ptr leaves the data bits of the pointer word alone. */
  lemma ReplacePtrKeeps(ptr: Word, p: Word, alloc: Word, low: Word, nf: Word)
    requires Sizes(low, nf)
    ensures Agree(ReplacePtr(ptr, p), p, PTR_MASK)
    ensures Gather(ReplacePtr(ptr, p), alloc, low, nf) == Gather(ptr, alloc, low, nf)
  {
    hide MiddleMask, Replace, ReplacePtr, Agree, Gather;
    ReplacePtrIs(ptr, p);
    ReplacedAt(ptr, p, PTR_MASK);
    ReplacedElsewhere(ptr, p, PTR_MASK, UPPER_MASK);
    AgreeSelf(alloc, UPPER_MASK);
    AgreeSelf(alloc, MiddleMask(low, nf));
    GatherReads(ReplacePtr(ptr, p), alloc, ptr, alloc, low, nf);
  }

  lemma FlagBit(alloc: Word, on: bool, m: Word)
    requires Disjoint(m, 1)
    ensures Agree(PutFlag(alloc, on), alloc, m)
  {
    hide Agree, Disjoint;
    if on { FlagRaised(alloc, m); } else { FlagLowered(alloc, m); }
  }

  lemma FlagRaised(alloc: Word, m: Word)
    requires Disjoint(m, 1)
    ensures Agree(alloc | 1, alloc, m)
  {
  }

  lemma FlagLowered(alloc: Word, m: Word)
    requires Disjoint(m, 1)
    ensures Agree(alloc & !1, alloc, m)
  {
  }

  lemma OneFlag(alloc: Word, on: bool)
    ensures Field(PutFlag(alloc, on), FlagsMask(1)) == PutFlag(Field(alloc, FlagsMask(1)), on) == if on then 1 else 0
  {
  }

  lemma FlagApart(low: Word)
    requires Sizes(low, 1)
    ensures Disjoint(AllocMask(low), 1) && Disjoint(MiddleMask(low, 1), 1) && Disjoint(UPPER_MASK, 1)
    ensures FlagsMask(1) == 1
  {
  }

  /** set_flag and unset_flag leave data and allocated pointer alone. */
  lemma PutFlagKeeps(ptr: Word, alloc: Word, on: bool, low: Word)
    requires Sizes(low, 1)
    ensures Field(PutFlag(alloc, on), FlagsMask(1)) == PutFlag(Field(alloc, FlagsMask(1)), on)
    ensures Agree(PutFlag(alloc, on), alloc, AllocMask(low))
    ensures Gather(ptr, PutFlag(alloc, on), low, 1) == Gather(ptr, alloc, low, 1)
  {
    hide AllocMask, FlagsMask, MiddleMask, Disjoint, Agree, Gather, PutFlag, Field;
    FlagApart(low);
    OneFlag(alloc, on);
    FlagBit(alloc, on, AllocMask(low));
    FlagBit(alloc, on, MiddleMask(low, 1));
    FlagBit(alloc, on, UPPER_MASK);
    AgreeSelf(ptr, UPPER_MASK);
    GatherReads(ptr, PutFlag(alloc, on), ptr, alloc, low, 1);
  }

  lemma FieldOf(x: Word, m: Word)
    ensures x & !m == 0 ==> Field(x, m) == x
  {
  }

  lemma SmallIsWhole(p: Word)
    ensures p <= PTR_MASK ==> Field(p, PTR_MASK) == p
  {
  }

  lemma MarkInRange(low: Word)
    requires low <= 16
    ensures 0 < ZombieMark(low) <= PTR_MASK
  {
  }

  lemma ZeroFields(m: Word)
    ensures Field(0, m) == 0
  {
  }

  lemma FieldTwice(x: Word, m: Word)
    ensures Field(Field(x, m), m) == Field(x, m)
  {
  }

  lemma FieldOutside(x: Word, m: Word, k: Word)
    requires Disjoint(m, k)
    ensures Field(Field(x, m), k) == 0
  {
  }

  lemma GatherZero(low: Word, nf: Word)
    requires Sizes(low, nf)
    ensures Gather(0, 0, low, nf) == 0
  {
  }

  /** Data without the part that lives in the pointer word. */
  function Wiped(data: Word): Word { data & !0xFFFF }

  predicate LowBitsClear(data: Word) { data & 0xFFFF == 0 }

  lemma WipedIsSame(data: Word)
    ensures data == Wiped(data) <==> LowBitsClear(data)
  {
  }

  lemma HigherParts(alloc: Word, low: Word, nf: Word)
    requires Sizes(low, nf)
    ensures LowBitsClear(FromUpper(alloc, nf)) && LowBitsClear(FromMiddle(alloc, low, nf))
  {
  }

  lemma LowestPart(ptr: Word, low: Word)
    requires low <= 16
    ensures Wiped(FromPtr(ptr)) == 0 == FromPtr(ZombieMark(low))
  {
  }

  lemma WipedParts(h: Word, l: Word, m: Word)
    requires LowBitsClear(h) && LowBitsClear(m) && Wiped(l) == 0
    ensures Wiped(Joined(h, l, m)) == Joined(h, 0, m)
  {
  }

  /** set_zombie wipes the 16 data bits that live in the pointer word. */
  lemma ZombieWipes(ptr: Word, alloc: Word, low: Word, nf: Word)
    requires Sizes(low, nf)
    ensures Gather(ZombieMark(low), alloc, low, nf) == Wiped(Gather(ptr, alloc, low, nf))
  {
    hide ZombieMark, FromUpper, FromPtr, FromMiddle, Joined, Wiped, LowBitsClear;
    HigherParts(alloc, low, nf);
    LowestPart(ptr, low);
    WipedParts(FromUpper(alloc, nf), FromPtr(ptr), FromMiddle(alloc, low, nf));
  }
}
