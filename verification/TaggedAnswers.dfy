/** What a user of the two-word pointer, and of its plain twin, is told after each setter:
    the answers themselves, and not only that the two forms agree on them
    (include/tagged_ptr_impl.h:580-651, 733-826). Masks and marks are written out here. */
module TaggedAnswers {
  import opened TaggedWords
  import opened TaggedPointers

  predicate PtrArg(low: Word, p: Word)
    requires low <= 16
  {
    p == 0 || (1 << low) < p <= 0xFFFF_FFFF_FFFF
  }

  predicate AllocArg(low: Word, a: Word)
    requires low <= 16
  {
    a <= 0xFFFF_FFFF_FFFF && a & ((1 << low) - 1) == 0
  }

  lemma ArgsOk(c: Layout, p: Word, a: Word)
    ensures PtrOk(c, p) <==> PtrArg(c.low, p)
    ensures AllocOk(c, a) <==> AllocArg(c.low, a)
  {
    hide Above;
    AboveMark(c.low, p);
    AlignedAlloc(c.low, a);
  }

  lemma AlignedAlloc(low: Word, a: Word)
    requires 2 <= low <= 16
    ensures a & !AllocMask(low) == 0 <==> AllocArg(low, a)
  {
  }

  // ---------------------------------------------------------------- has_flag

  lemma FlagBits(x: Word)
    ensures HasBit(PutFlag(x, true)) && !HasBit(PutFlag(x, false)) && !HasBit(0)
  {
  }

  lemma SameFlag(c: Layout, v: Packed, w: Packed)
    requires c.nf == 1 && FlagsOf(c, v) == FlagsOf(c, w)
    ensures HasBit(v.allocptr) == HasBit(w.allocptr)
  {
    hide HasBit, FlagsOf;
    FlagIsBit(c, v);
    FlagIsBit(c, w);
  }

  /** has_flag says what the last of set_flag, unset_flag and init has left. */
  lemma FlagAnswers(c: Layout, g: Plain, w: Packed)
    requires c.nf == 1
    ensures PlainGet(PlainSet(g, SetFlag), HasFlag) == PackedGet(c, PackedSet(c, w, SetFlag), HasFlag) == Answer(true)
    ensures PlainGet(PlainSet(g, UnsetFlag), HasFlag) == PackedGet(c, PackedSet(c, w, UnsetFlag), HasFlag) == Answer(false)
    ensures PlainGet(PlainSet(g, Init), HasFlag) == PackedGet(c, PackedSet(c, w, Init), HasFlag) == Answer(false)
  {
    hide HasBit, PutFlag;
    FlagBits(g.flags);
    FlagBits(w.allocptr);
  }

  lemma FlagAnswersInit(c: Layout, g: Plain, w: Packed, p: Word, a: Word, data: Word)
    requires c.nf == 1 && PtrArg(c.low, p) && AllocArg(c.low, a) && data <= 0xFFFF_FFFF
    ensures PlainGet(PlainSet(g, InitData(data)), HasFlag) == PackedGet(c, PackedSet(c, w, InitData(data)), HasFlag) == Answer(false)
    ensures PlainGet(PlainSet(g, InitAll(p, a, data)), HasFlag)
         == PackedGet(c, PackedSet(c, w, InitAll(p, a, data)), HasFlag) == Answer(false)
  {
    hide HasBit, PtrArg, AllocArg, PtrOk, AllocOk, WithData, Bare, FlagsOf, DataOf, PtrOf, AllocOf, ZombieMark;
    FlagBits(0);
    ArgsOk(c, p, a);
    EmptyFields(c);
    DataSet(c, EMPTY, data);
    SameFlag(c, WithData(c, EMPTY, data), EMPTY);
    BareFields(c, p, a);
    DataSet(c, Bare(c, p, a), data);
    SameFlag(c, WithData(c, Bare(c, p, a), data), EMPTY);
  }

  /** The other setters leave the answer as it was. */
  lemma FlagAnswersKept(c: Layout, g: Plain, w: Packed, op: Change)
    requires c.nf == 1 && (op.SetData? || op.SetPtr? || op.SetAlloc? || op.SetZombie?)
    requires (op.SetData? ==> op.data <= 0xFFFF_FFFF) && (op.SetAlloc? ==> AllocArg(c.low, op.a))
    ensures PlainGet(PlainSet(g, op), HasFlag) == PlainGet(g, HasFlag)
    ensures PackedGet(c, PackedSet(c, w, op), HasFlag) == PackedGet(c, w, HasFlag)
  {
    hide HasBit, AllocArg, AllocOk, WithData, PutFlag, ZombieMark, ReplacePtr, ReplaceAlloc, Bare, PtrOf, AllocOf, DataOf;
    if op.SetData? { FlagKeptByData(c, w, op.data); }
    if op.SetAlloc? { FlagKeptByAlloc(c, w, op.a); }
  }

  lemma FlagKeptByData(c: Layout, w: Packed, data: Word)
    requires c.nf == 1 && data <= 0xFFFF_FFFF
    ensures HasBit(WithData(c, w, data).allocptr) == HasBit(w.allocptr)
  {
    hide HasBit, WithData, FlagsOf, DataOf, PtrOf, AllocOf;
    DataSet(c, w, data);
    SameFlag(c, WithData(c, w, data), w);
  }

  lemma FlagKeptByAlloc(c: Layout, w: Packed, a: Word)
    requires c.nf == 1 && AllocArg(c.low, a)
    ensures HasBit(ReplaceAlloc(w.allocptr, a, c.low)) == HasBit(w.allocptr)
  {
    hide HasBit, AllocArg, AllocOk, FlagsOf, DataOf, AllocOf, ReplaceAlloc, PtrOk;
    ArgsOk(c, 0, a);
    AllocSet(c, w, a);
    SameFlag(c, w.(allocptr := ReplaceAlloc(w.allocptr, a, c.low)), w);
  }

  // ---------------------------------------------------------------- zombies and null pointers

  /** A zombie says so; asked for a pointer it raises the zero-pointer error, asked for one
      to dereference the late-zombie error. */
  lemma ZombieAnswers(c: Layout, g: Plain, w: Packed)
    ensures var g', w' := PlainSet(g, SetZombie), PackedSet(c, w, SetZombie);
            && PlainGet(g', IsZombie) == PackedGet(c, w', IsZombie) == Answer(true)
            && PlainGet(g', GetPtr) == PackedGet(c, w', GetPtr) == Raised(ZeroPointer)
            && PlainGet(g', GetAlloc) == PackedGet(c, w', GetAlloc) == Raised(ZeroPointer)
            && PlainGet(g', GetDereferencable) == PackedGet(c, w', GetDereferencable) == Raised(LateZombie)
            && PlainGet(g', GetDereferencableAlloc) == PackedGet(c, w', GetDereferencableAlloc) == Raised(LateZombie)
            && w'.ptr == 1 << c.low
  {
    hide Above, PtrOf, AllocOf, DataOf, HasBit;
    ZombieSet(c, w);
    NotAboveItself(ZombieMark(c.low));
  }

  /** The pointer last set is the one got back; null is no zombie, can be had, and raises the
      zero-pointer error when it is to be dereferenced. */
  lemma PtrAnswers(c: Layout, g: Plain, w: Packed, p: Word)
    requires PtrArg(c.low, p) && !g.isZombie
    ensures var g', w' := PlainSet(g, SetPtr(p)), PackedSet(c, w, SetPtr(p));
            && PlainGet(g', IsZombie) == PackedGet(c, w', IsZombie) == Answer(false)
            && PlainGet(g', GetPtr) == PackedGet(c, w', GetPtr) == Value(p)
            && PlainGet(g', GetDereferencable) == PackedGet(c, w', GetDereferencable)
            && PlainGet(g', GetDereferencable) == (if p == 0 then Raised(ZeroPointer) else Value(p))
            && PlainGet(g', GetData) == PlainGet(g, GetData) && PackedGet(c, w', GetData) == PackedGet(c, w, GetData)
  {
    hide Above, PtrOf, AllocOf, DataOf, HasBit, ZombieMark, PtrArg, ReplacePtr;
    ArgsOk(c, p, 0);
    PtrSet(c, w, p);
    NullNotAbove(ZombieMark(c.low));
  }

  /** Likewise the allocated pointer of an object that is no zombie. */
  lemma AllocAnswers(c: Layout, g: Plain, w: Packed, a: Word)
    requires AllocArg(c.low, a) && !g.isZombie && !Undead(c, w)
    ensures var g', w' := PlainSet(g, SetAlloc(a)), PackedSet(c, w, SetAlloc(a));
            && PlainGet(g', GetAlloc) == PackedGet(c, w', GetAlloc) == Value(a)
            && PlainGet(g', GetDereferencableAlloc) == PackedGet(c, w', GetDereferencableAlloc)
            && PlainGet(g', GetDereferencableAlloc) == (if a == 0 then Raised(ZeroPointer) else Value(a))
            && (forall q | q in {IsZombie, GetPtr, GetDereferencable, GetData} ::
                  PlainGet(g', q) == PlainGet(g, q) && PackedGet(c, w', q) == PackedGet(c, w, q))
  {
    hide Above, AllocOf, DataOf, FlagsOf, PtrOf, HasBit, ZombieMark, AllocArg, AllocOk, ReplaceAlloc;
    ArgsOk(c, 0, a);
    AllocSet(c, w, a);
    SameWords(c, w, w.(allocptr := ReplaceAlloc(w.allocptr, a, c.low)));
  }

  /** The data last set is the data got back, and nothing else has changed. */
  lemma DataAnswers(c: Layout, g: Plain, w: Packed, data: Word)
    requires data <= 0xFFFF_FFFF
    ensures var g', w' := PlainSet(g, SetData(data)), PackedSet(c, w, SetData(data));
            && PlainGet(g', GetData) == PackedGet(c, w', GetData) == Value(data)
            && (forall q | q in {IsZombie, GetPtr, GetDereferencable, GetAlloc, GetDereferencableAlloc} ::
                  PlainGet(g', q) == PlainGet(g, q) && PackedGet(c, w', q) == PackedGet(c, w, q))
  {
    hide Above, PtrOf, AllocOf, DataOf, FlagsOf, HasBit, ZombieMark, WithData;
    DataSet(c, w, data);
  }

  /** A freshly initialised object answers with what it was given. */
  lemma InitAnswers(c: Layout, g: Plain, w: Packed, p: Word, a: Word, data: Word)
    requires PtrArg(c.low, p) && AllocArg(c.low, a) && data <= 0xFFFF_FFFF
    ensures var g', w' := PlainSet(g, InitAll(p, a, data)), PackedSet(c, w, InitAll(p, a, data));
            && PlainGet(g', IsZombie) == PackedGet(c, w', IsZombie) == Answer(false)
            && PlainGet(g', GetPtr) == PackedGet(c, w', GetPtr) == Value(p)
            && PlainGet(g', GetAlloc) == PackedGet(c, w', GetAlloc) == Value(a)
            && PlainGet(g', GetData) == PackedGet(c, w', GetData) == Value(data)
  {
    hide Above, PtrOf, AllocOf, DataOf, FlagsOf, HasBit, ZombieMark, WithData, Bare, PtrArg, AllocArg, PtrOk, AllocOk;
    ArgsOk(c, p, a);
    BareFields(c, p, a);
    DataSet(c, Bare(c, p, a), data);
  }

  /** After a copy, move or swap, whatever is asked of an object is answered as the other
      answered before; a moved-from object is as a new one; with a zombie nothing happens
      but the zero-pointer error. */
  lemma PairAnswers(c: Layout, s: seq<Plain>, t: seq<Packed>, i: nat, how: PairOp, j: nat, q: Query)
    requires i < |s| == |t| && j < |s| && i != j
    ensures var (s', out) := PlainStep(s, Pair(i, how, j));
            if s[i].isZombie || s[j].isZombie then s' == s && out == Raised(ZeroPointer)
            else
              && out == Done && PlainGet(s'[i], q) == PlainGet(s[j], q)
              && PlainGet(s'[j], q) == PlainGet(if how.CopyFrom? then s[j] else if how.Swap? then s[i] else Plain(0, 0, 0, 0, false), q)
    ensures var (t', out) := PackedStep(c, t, Pair(i, how, j));
            if Undead(c, t[i]) || Undead(c, t[j]) then t' == t && out == Raised(ZeroPointer)
            else
              && out == Done && PackedGet(c, t'[i], q) == PackedGet(c, t[j], q)
              && PackedGet(c, t'[j], q) == PackedGet(c, if how.CopyFrom? then t[j] else if how.Swap? then t[i] else Packed(0, 0), q)
  {
    hide PlainGet, PackedGet, Undead, Sizes;
  }

  /** An object initialised with data alone, or with nothing, has null pointers. */
  lemma EmptyAnswers(c: Layout, g: Plain, w: Packed, data: Word)
    requires data <= 0xFFFF_FFFF
    ensures forall op | op in {Init, InitData(data)} ::
              var g', w' := PlainSet(g, op), PackedSet(c, w, op);
              && PlainGet(g', IsZombie) == PackedGet(c, w', IsZombie) == Answer(false)
              && PlainGet(g', GetPtr) == PackedGet(c, w', GetPtr) == Value(0)
              && PlainGet(g', GetAlloc) == PackedGet(c, w', GetAlloc) == Value(0)
              && PlainGet(g', GetDereferencable) == PackedGet(c, w', GetDereferencable) == Raised(ZeroPointer)
              && PlainGet(g', GetDereferencableAlloc) == PackedGet(c, w', GetDereferencableAlloc) == Raised(ZeroPointer)
              && PlainGet(g', GetData) == PackedGet(c, w', GetData) == Value(if op == Init then 0 else data)
  {
    hide Above, PtrOf, AllocOf, DataOf, FlagsOf, HasBit, ZombieMark, WithData;
    EmptyFields(c);
    DataSet(c, EMPTY, data);
    NullNotAbove(ZombieMark(c.low));
  }
}
