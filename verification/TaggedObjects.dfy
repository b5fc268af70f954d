/** The two-word tagged pointer and its plain twin as objects that are updated in place,
    word by word, including when both arguments of an operation are the same object
    (include/tagged_ptr_impl.h:538-638, 700-812). */
module TaggedObjects {
  import opened TaggedWords
  import opened TaggedPointers

  lemma Replaced(x: Word, y: Word, m: Word)
    ensures Replace(x, y, m) == (x & !m) | (y & m)
  {
  }

  class OptimizedPtr {
    const c: Layout
    var ptr: Word
    var allocptr: Word

    function View(): Packed
      reads this
    {
      Packed(ptr, allocptr)
    }

    constructor (layout: Layout)
      ensures c == layout && View() == EMPTY
    {
      c := layout;
      ptr, allocptr := 0, 0;
    }

    method Init()
      modifies this
      ensures View() == PackedSet(c, old(View()), TaggedPointers.Init)
    {
      ptr := 0;
      allocptr := 0;
    }

    method InitData(data: Word)
      modifies this
      ensures View() == PackedSet(c, old(View()), TaggedPointers.InitData(data))
    {
      hide ScatterPtr, ScatterAlloc;
      Init();
      SetData(data);
    }

    method InitAll(p: Word, a: Word, data: Word)
      modifies this
      ensures View() == PackedSet(c, old(View()), TaggedPointers.InitAll(p, a, data))
    {
      hide ScatterPtr, ScatterAlloc, AllocMask;
      ptr := Field(p, PTR_MASK);
      allocptr := Field(a, AllocMask(c.low));
      SetData(data);
    }

    /** Each word is masked, then the pieces are or-ed in. */
    method SetData(data: Word)
      modifies this
      ensures View() == PackedSet(c, old(View()), TaggedPointers.SetData(data))
    {
      hide AllocMask, FlagsMask, UpperPart, LowerPart, ScatterPtr, ScatterAlloc;
      SetDataInPtr(data);
      SetDataInAlloc(data);
    }

    method SetDataInPtr(data: Word)
      modifies this`ptr
      ensures ptr == ScatterPtr(old(ptr), data)
    {
      hide PtrPart;
      ptr := ptr & PTR_MASK;
      ptr := ptr | PtrPart(data);
    }

    method SetDataInAlloc(data: Word)
      modifies this`allocptr
      ensures allocptr == ScatterAlloc(old(allocptr), data, c.low, c.nf)
    {
      hide AllocMask, FlagsMask, UpperPart, LowerPart;
      allocptr := allocptr & (AllocMask(c.low) | FlagsMask(c.nf));
      allocptr := allocptr | UpperPart(data, c.low, c.nf);
      allocptr := allocptr | LowerPart(data, c.low, c.nf);
    }

    /** A null pointer, or one above the zombie mark, is there afterwards; the data is not
        touched. */
    method SetPtr(p: Word)
      modifies this`ptr
      ensures View() == PackedSet(c, old(View()), TaggedPointers.SetPtr(p))
      ensures PtrOk(c, p) ==>
                PtrOf(View()) == p && DataOf(c, View()) == old(DataOf(c, View())) && !Undead(c, View())
    {
      hide PtrOf, DataOf, ZombieMark, PtrOk, ReplacePtr;
      ghost var was := View();
      PutPtrBits(p);
      if PtrOk(c, p) { PtrSet(c, was, p); }
    }

    method PutPtrBits(p: Word)
      modifies this`ptr
      ensures ptr == ReplacePtr(old(ptr), p)
    {
      ptr := (ptr & UPPER_MASK) | (p & PTR_MASK);
    }

    /** An aligned allocated pointer is there afterwards; flags and data are not touched. */
    method SetAllocatedPtr(a: Word)
      modifies this`allocptr
      ensures View() == PackedSet(c, old(View()), TaggedPointers.SetAlloc(a))
      ensures AllocOk(c, a) ==>
                && AllocOf(c, View()) == a && FlagsOf(c, View()) == old(FlagsOf(c, View()))
                && DataOf(c, View()) == old(DataOf(c, View()))
    {
      hide AllocOf, FlagsOf, DataOf, AllocOk, ReplaceAlloc;
      ghost var was := View();
      PutAllocBits(a);
      if AllocOk(c, a) { AllocSet(c, was, a); }
    }

    method PutAllocBits(a: Word)
      modifies this`allocptr
      ensures allocptr == ReplaceAlloc(old(allocptr), a, c.low)
    {
      hide AllocMask, Replace;
      var mask := AllocMask(c.low);
      Replaced(allocptr, a, mask);
      allocptr := (allocptr & !mask) | (a & mask);
    }

    method SetFlag(on: bool)
      modifies this`allocptr
      ensures View() == PackedSet(c, old(View()), if on then TaggedPointers.SetFlag else TaggedPointers.UnsetFlag)
    {
      if on {
        allocptr := allocptr | 1;
      } else {
        allocptr := allocptr & !1;
      }
    }

    method SetZombie()
      modifies this`ptr
      ensures View() == PackedSet(c, old(View()), TaggedPointers.SetZombie)
    {
      ptr := ZombieMark(c.low);
    }

    method CopyFrom(other: OptimizedPtr) returns (r: Outcome)
      requires other.c == c
      modifies this
      ensures other != this ==>
                var (s, out) := PackedStep(c, old([View(), other.View()]), Pair(0, TaggedPointers.CopyFrom, 1));
                View() == s[0] && other.View() == s[1] && r == out
      ensures other == this ==>
                var (s, out) := PackedStep(c, old([View()]), Pair(0, TaggedPointers.CopyFrom, 0));
                View() == s[0] && r == out
    {
      if !Undead(c, View()) && !Undead(c, other.View()) {
        ptr := other.ptr;
        allocptr := other.allocptr;
        r := Done;
      } else {
        r := Raised(ZeroPointer);
      }
    }

    method MoveFrom(other: OptimizedPtr) returns (r: Outcome)
      requires other.c == c
      modifies this, other
      ensures other != this ==>
                var (s, out) := PackedStep(c, old([View(), other.View()]), Pair(0, TaggedPointers.MoveFrom, 1));
                View() == s[0] && other.View() == s[1] && r == out
      ensures other == this ==>
                var (s, out) := PackedStep(c, old([View()]), Pair(0, TaggedPointers.MoveFrom, 0));
                View() == s[0] && r == out
    {
      if !Undead(c, View()) && !Undead(c, other.View()) {
        ptr := other.ptr;
        allocptr := other.allocptr;
        other.Init();
        r := Done;
      } else {
        r := Raised(ZeroPointer);
      }
    }

    method Swap(other: OptimizedPtr) returns (r: Outcome)
      requires other.c == c
      modifies this, other
      ensures other != this ==>
                var (s, out) := PackedStep(c, old([View(), other.View()]), Pair(0, TaggedPointers.Swap, 1));
                View() == s[0] && other.View() == s[1] && r == out
      ensures other == this ==>
                var (s, out) := PackedStep(c, old([View()]), Pair(0, TaggedPointers.Swap, 0));
                View() == s[0] && r == out
    {
      if !Undead(c, View()) && !Undead(c, other.View()) {
        var tmp := ptr;
        ptr := other.ptr;
        other.ptr := tmp;
        tmp := allocptr;
        allocptr := other.allocptr;
        other.allocptr := tmp;
        r := Done;
      } else {
        r := Raised(ZeroPointer);
      }
    }
  }

  class GenericPtr {
    var ptr: Word
    var allocptr: Word
    var data: Word
    var flags: Word
    var isZombie: bool

    function View(): Plain
      reads this
    {
      Plain(ptr, allocptr, data, flags, isZombie)
    }

    constructor ()
      ensures View() == PLAIN_EMPTY
    {
      ptr, allocptr, data, flags, isZombie := 0, 0, 0, 0, false;
    }

    method Init()
      modifies this
      ensures View() == PLAIN_EMPTY
    {
      ptr := 0;
      allocptr := 0;
      data := 0;
      flags := 0;
      isZombie := false;
    }

    method CopyFrom(other: GenericPtr) returns (r: Outcome)
      modifies this
      ensures other != this ==>
                var (s, out) := PlainStep(old([View(), other.View()]), Pair(0, TaggedPointers.CopyFrom, 1));
                View() == s[0] && other.View() == s[1] && r == out
      ensures other == this ==>
                var (s, out) := PlainStep(old([View()]), Pair(0, TaggedPointers.CopyFrom, 0));
                View() == s[0] && r == out
    {
      if !isZombie && !other.isZombie {
        ptr := other.ptr;
        allocptr := other.allocptr;
        data := other.data;
        flags := other.flags;
        r := Done;
      } else {
        r := Raised(ZeroPointer);
      }
    }

    method MoveFrom(other: GenericPtr) returns (r: Outcome)
      modifies this, other
      ensures other != this ==>
                var (s, out) := PlainStep(old([View(), other.View()]), Pair(0, TaggedPointers.MoveFrom, 1));
                View() == s[0] && other.View() == s[1] && r == out
      ensures other == this ==>
                var (s, out) := PlainStep(old([View()]), Pair(0, TaggedPointers.MoveFrom, 0));
                View() == s[0] && r == out
    {
      if !isZombie && !other.isZombie {
        ptr := other.ptr;
        allocptr := other.allocptr;
        data := other.data;
        flags := other.flags;
        other.Init();
        r := Done;
      } else {
        r := Raised(ZeroPointer);
      }
    }

    method Swap(other: GenericPtr) returns (r: Outcome)
      modifies this, other
      ensures other != this ==>
                var (s, out) := PlainStep(old([View(), other.View()]), Pair(0, TaggedPointers.Swap, 1));
                View() == s[0] && other.View() == s[1] && r == out
      ensures other == this ==>
                var (s, out) := PlainStep(old([View()]), Pair(0, TaggedPointers.Swap, 0));
                View() == s[0] && r == out
    {
      if !isZombie && !other.isZombie {
        var tmp := ptr;
        ptr := other.ptr;
        other.ptr := tmp;
        tmp := allocptr;
        allocptr := other.allocptr;
        other.allocptr := tmp;
        var tmpData := data;
        data := other.data;
        other.data := tmpData;
        var tmpFlags := flags;
        flags := other.flags;
        other.flags := tmpFlags;
        r := Done;
      } else {
        r := Raised(ZeroPointer);
      }
    }
  }
}
