/** The two-word tagged pointer against the plain structure it replaces: for every program
    over any number of such objects that keeps to the rules, both give the same answers
    and raise the same errors (include/tagged_ptr_impl.h:513-651, 653-826). */
module TaggedPointers {
  import opened TaggedWords

  /** The template parameters: unused low bits of an allocated pointer, and flags. */
  datatype AnyLayout = Layout(low: Word, nf: Word)
  type Layout = c: AnyLayout | Sizes(c.low, c.nf) witness Layout(3, 1)

  datatype Error = ZeroPointer | LateZombie
  datatype Outcome = Done | Value(word: Word) | Answer(yes: bool) | Raised(error: Error)

  /** The setters. */
  datatype Change =
    | Init
    | InitData(data: Word)
    | InitAll(p: Word, a: Word, data: Word)
    | SetPtr(p: Word)
    | SetAlloc(a: Word)
    | SetFlag
    | UnsetFlag
    | SetData(data: Word)
    | SetZombie

  /** The getters. */
  datatype Query = IsZombie | GetPtr | GetDereferencable | GetAlloc | GetDereferencableAlloc | HasFlag | GetData

  datatype PairOp = CopyFrom | MoveFrom | Swap

  /** What user code can do to object `i`, or to `i` and `j`, which may be the same. */
  datatype Op =
    | Apply(i: nat, change: Change)
    | Ask(i: nat, query: Query)
    | Pair(i: nat, how: PairOp, j: nat)

  predicate InRange(n: nat, op: Op) {
    op.i < n && (op.Pair? ==> op.j < n)
  }

  // ---------------------------------------------------------------- the plain structure

  datatype Plain = Plain(ptr: Word, allocptr: Word, data: Word, flags: Word, isZombie: bool)

  const PLAIN_EMPTY := Plain(0, 0, 0, 0, false)

  function PlainSet(g: Plain, op: Change): Plain {
    match op
    case Init => PLAIN_EMPTY
    case InitData(data) => PLAIN_EMPTY.(data := data)
    case InitAll(p, a, data) => Plain(p, a, data, 0, false)
    case SetPtr(p) => g.(ptr := p)
    case SetAlloc(a) => g.(allocptr := a)
    case SetFlag => g.(flags := PutFlag(g.flags, true))
    case UnsetFlag => g.(flags := PutFlag(g.flags, false))
    case SetData(data) => g.(data := data)
    case SetZombie => g.(isZombie := true)
  }

  predicate HasBit(flags: Word) { flags & 1 != 0 }

  function NullptrOrZombie(zombie: bool): Outcome {
    Raised(if zombie then LateZombie else ZeroPointer)
  }

  function PlainGet(g: Plain, op: Query): Outcome {
    match op
    case IsZombie => Answer(g.isZombie)
    case GetPtr => if !g.isZombie then Value(g.ptr) else Raised(ZeroPointer)
    case GetDereferencable => if !(g.isZombie || g.ptr == 0) then Value(g.ptr) else NullptrOrZombie(g.isZombie)
    case GetAlloc => if !g.isZombie then Value(g.allocptr) else Raised(ZeroPointer)
    case GetDereferencableAlloc =>
      if !(g.isZombie || g.allocptr == 0) then Value(g.allocptr) else NullptrOrZombie(g.isZombie)
    case HasFlag => Answer(HasBit(g.flags))
    case GetData => Value(g.data)
  }

  // ---------------------------------------------------------------- the packed form

  datatype Packed = Packed(ptr: Word, allocptr: Word)

  const EMPTY := Packed(0, 0)

  function PtrOf(w: Packed): Word { Field(w.ptr, PTR_MASK) }
  function AllocOf(c: Layout, w: Packed): Word { Field(w.allocptr, AllocMask(c.low)) }
  function FlagsOf(c: Layout, w: Packed): Word { Field(w.allocptr, FlagsMask(c.nf)) }
  function DataOf(c: Layout, w: Packed): Word { Gather(w.ptr, w.allocptr, c.low, c.nf) }
  predicate Undead(c: Layout, w: Packed) { PtrOf(w) == ZombieMark(c.low) }

  predicate Above(p: Word, mark: Word) { p > mark }

  function WithData(c: Layout, w: Packed, data: Word): Packed {
    Packed(ScatterPtr(w.ptr, data), ScatterAlloc(w.allocptr, data, c.low, c.nf))
  }

  function Bare(c: Layout, p: Word, a: Word): Packed { Packed(Field(p, PTR_MASK), Field(a, AllocMask(c.low))) }

  function PackedSet(c: Layout, w: Packed, op: Change): Packed {
    match op
    case Init => EMPTY
    case InitData(data) => WithData(c, EMPTY, data)
    case InitAll(p, a, data) => WithData(c, Bare(c, p, a), data)
    case SetPtr(p) => w.(ptr := ReplacePtr(w.ptr, p))
    case SetAlloc(a) => w.(allocptr := ReplaceAlloc(w.allocptr, a, c.low))
    case SetFlag => w.(allocptr := PutFlag(w.allocptr, true))
    case UnsetFlag => w.(allocptr := PutFlag(w.allocptr, false))
    case SetData(data) => WithData(c, w, data)
    case SetZombie => w.(ptr := ZombieMark(c.low))
  }

  function PackedGet(c: Layout, w: Packed, op: Query): Outcome {
    match op
    case IsZombie => Answer(Undead(c, w))
    case GetPtr => if PtrOf(w) != ZombieMark(c.low) then Value(PtrOf(w)) else Raised(ZeroPointer)
    case GetDereferencable => if Above(PtrOf(w), ZombieMark(c.low)) then Value(PtrOf(w)) else NullptrOrZombie(Undead(c, w))
    case GetAlloc => if !Undead(c, w) then Value(AllocOf(c, w)) else Raised(ZeroPointer)
    case GetDereferencableAlloc =>
      if !(Undead(c, w) || AllocOf(c, w) == 0) then Value(AllocOf(c, w)) else NullptrOrZombie(Undead(c, w))
    case HasFlag => Answer(HasBit(w.allocptr))
    case GetData => Value(DataOf(c, w))
  }

  // ---------------------------------------------------------------- programs over many objects

  function PlainStep(s: seq<Plain>, op: Op): (seq<Plain>, Outcome)
    requires InRange(|s|, op)
  {
    match op
    case Apply(i, change) => (s[i := PlainSet(s[i], change)], Done)
    case Ask(i, query) => (s, PlainGet(s[i], query))
    case Pair(i, how, j) =>
      if s[i].isZombie || s[j].isZombie then (s, Raised(ZeroPointer))
      else match how
        case CopyFrom => (s[i := s[j]], Done)
        case MoveFrom => (s[i := s[j]][j := PLAIN_EMPTY], Done)
        case Swap => (s[i := s[j]][j := s[i]], Done)
  }

  function PackedStep(c: Layout, s: seq<Packed>, op: Op): (seq<Packed>, Outcome)
    requires InRange(|s|, op)
  {
    match op
    case Apply(i, change) => (s[i := PackedSet(c, s[i], change)], Done)
    case Ask(i, query) => (s, PackedGet(c, s[i], query))
    case Pair(i, how, j) =>
      if Undead(c, s[i]) || Undead(c, s[j]) then (s, Raised(ZeroPointer))
      else match how
        case CopyFrom => (s[i := s[j]], Done)
        case MoveFrom => (s[i := s[j]][j := EMPTY], Done)
        case Swap => (s[i := s[j]][j := s[i]], Done)
  }

  /** Null, or above the zombie mark and within 48 bits. */
  predicate PtrOk(c: Layout, p: Word) { p == 0 || (Above(p, ZombieMark(c.low)) && p <= PTR_MASK) }

  predicate AllocOk(c: Layout, a: Word) { a & !AllocMask(c.low) == 0 }

  /** The rules: arguments in range, flags only where there are any, and a zombie is only
      asked, marked or initialised afresh, but not for its data. */
  predicate ChangeOk(c: Layout, zombie: bool, op: Change) {
    match op
    case InitData(data) => data <= MAX_DATA
    case InitAll(p, a, data) => PtrOk(c, p) && AllocOk(c, a) && data <= MAX_DATA
    case SetPtr(p) => PtrOk(c, p) && !zombie
    case SetAlloc(a) => AllocOk(c, a)
    case SetFlag => c.nf == 1
    case UnsetFlag => c.nf == 1
    case SetData(data) => data <= MAX_DATA
    case _ => true
  }

  predicate QueryOk(c: Layout, zombie: bool, op: Query) {
    (op == HasFlag ==> c.nf == 1) && (op == GetData ==> !zombie)
  }

  predicate Legal(c: Layout, s: seq<Plain>, op: Op) {
    && InRange(|s|, op)
    && (op.Apply? ==> ChangeOk(c, s[op.i].isZombie, op.change))
    && (op.Ask? ==> QueryOk(c, s[op.i].isZombie, op.query))
  }

  /** One object in both forms. */
  ghost predicate Rel(c: Layout, g: Plain, w: Packed) {
    && g.isZombie == Undead(c, w)
    && g.allocptr == AllocOf(c, w) && g.flags == FlagsOf(c, w)
    && (!g.isZombie ==> g.ptr == PtrOf(w) && PtrOk(c, g.ptr) && g.data == DataOf(c, w))
  }

  ghost predicate RelAll(c: Layout, s: seq<Plain>, t: seq<Packed>) {
    |s| == |t| && forall k | 0 <= k < |s| :: Rel(c, s[k], t[k])
  }

  // ---------------------------------------------------------------- one object, one setter

  /** set_data on any object: the data is there, everything else is as before. */
  lemma DataSet(c: Layout, w: Packed, data: Word)
    requires data <= MAX_DATA
    ensures DataOf(c, WithData(c, w, data)) == data
    ensures PtrOf(WithData(c, w, data)) == PtrOf(w)
    ensures AllocOf(c, WithData(c, w, data)) == AllocOf(c, w)
    ensures FlagsOf(c, WithData(c, w, data)) == FlagsOf(c, w)
  {
    hide Gather, ScatterPtr, ScatterAlloc, AllocMask, FlagsMask, MiddleMask, UpperPart, LowerPart, Field;
    GatherScatter(w.ptr, w.allocptr, data, c.low, c.nf);
    PartsPlaced(w.allocptr, data, c.low, c.nf);
    PtrPartLands(w.ptr, data);
  }

  /** set_ptr. */
  lemma PtrSet(c: Layout, w: Packed, p: Word)
    requires PtrOk(c, p)
    ensures var after := w.(ptr := ReplacePtr(w.ptr, p));
            PtrOf(after) == p != ZombieMark(c.low) && DataOf(c, after) == DataOf(c, w)
  {
    hide Gather, ZombieMark, ReplacePtr, Field;
    MarkInRange(c.low);
    SmallIsWhole(p);
    ReplacePtrKeeps(w.ptr, p, w.allocptr, c.low, c.nf);
  }

  /** set_allocated_ptr. */
  lemma AllocSet(c: Layout, w: Packed, a: Word)
    requires AllocOk(c, a)
    ensures var after := w.(allocptr := ReplaceAlloc(w.allocptr, a, c.low));
            AllocOf(c, after) == a && FlagsOf(c, after) == FlagsOf(c, w) && DataOf(c, after) == DataOf(c, w)
  {
    hide Gather, AllocMask, FlagsMask, ReplaceAlloc, Field;
    FieldOf(a, AllocMask(c.low));
    ReplaceAllocKeeps(w.ptr, w.allocptr, a, c.low, c.nf);
  }

  /** set_flag and unset_flag. */
  lemma FlagSet(c: Layout, w: Packed, on: bool)
    requires c.nf == 1
    ensures var after := w.(allocptr := PutFlag(w.allocptr, on));
            && FlagsOf(c, after) == PutFlag(FlagsOf(c, w), on)
            && AllocOf(c, after) == AllocOf(c, w) && DataOf(c, after) == DataOf(c, w)
  {
    hide Gather, AllocMask, FlagsMask, PutFlag, Field;
    PutFlagKeeps(w.ptr, w.allocptr, on, c.low);
  }

  lemma EmptyFields(c: Layout)
    ensures PtrOf(EMPTY) == 0 && AllocOf(c, EMPTY) == 0 && FlagsOf(c, EMPTY) == 0 && DataOf(c, EMPTY) == 0
    ensures !Undead(c, EMPTY)
  {
    hide Gather, AllocMask, FlagsMask, ZombieMark, Field;
    MarkInRange(c.low);
    ZeroFields(PTR_MASK);
    ZeroFields(AllocMask(c.low));
    ZeroFields(FlagsMask(c.nf));
    GatherZero(c.low, c.nf);
  }

  lemma BareFields(c: Layout, p: Word, a: Word)
    requires PtrOk(c, p) && AllocOk(c, a)
    ensures PtrOf(Bare(c, p, a)) == p != ZombieMark(c.low) && AllocOf(c, Bare(c, p, a)) == a && FlagsOf(c, Bare(c, p, a)) == 0
  {
    hide ZombieMark, AllocMask, FlagsMask, Field, Disjoint;
    MarkInRange(c.low);
    SmallIsWhole(p);
    FieldTwice(p, PTR_MASK);
    FieldOf(a, AllocMask(c.low));
    FieldTwice(a, AllocMask(c.low));
    MasksDisjoint(c.low, c.nf);
    FieldOutside(a, AllocMask(c.low), FlagsMask(c.nf));
  }

  /** set_zombie keeps allocated pointer and flags, and loses 16 data bits. */
  lemma ZombieSet(c: Layout, w: Packed)
    ensures Undead(c, w.(ptr := ZombieMark(c.low)))
    ensures DataOf(c, w.(ptr := ZombieMark(c.low))) == Wiped(DataOf(c, w))
  {
    hide Gather, ZombieMark, Field, Wiped;
    MarkInRange(c.low);
    SmallIsWhole(ZombieMark(c.low));
    ZombieWipes(w.ptr, w.allocptr, c.low, c.nf);
  }

  // Each setter, on one object in both forms.

  lemma InitAgrees(c: Layout, g: Plain, w: Packed, op: Change)
    requires Rel(c, g, w) && op.Init? && ChangeOk(c, g.isZombie, op)
    ensures Rel(c, PlainSet(g, op), PackedSet(c, w, op))
  {
    hide DataOf, WithData, Bare, PtrOf, AllocOf, FlagsOf, AllocOk, ZombieMark, ReplacePtr, ReplaceAlloc, PutFlag, PtrOk;
    EmptyFields(c);
    NullOk(c);
  }

  lemma InitDataAgrees(c: Layout, g: Plain, w: Packed, op: Change)
    requires Rel(c, g, w) && op.InitData? && ChangeOk(c, g.isZombie, op)
    ensures Rel(c, PlainSet(g, op), PackedSet(c, w, op))
  {
    hide DataOf, WithData, Bare, PtrOf, AllocOf, FlagsOf, AllocOk, ZombieMark, ReplacePtr, ReplaceAlloc, PutFlag, PtrOk;
    EmptyFields(c);
    NullOk(c);
    DataSet(c, EMPTY, op.data);
  }

  lemma InitAllAgrees(c: Layout, g: Plain, w: Packed, op: Change)
    requires Rel(c, g, w) && op.InitAll? && ChangeOk(c, g.isZombie, op)
    ensures Rel(c, PlainSet(g, op), PackedSet(c, w, op))
  {
    hide DataOf, WithData, Bare, PtrOf, AllocOf, FlagsOf, AllocOk, ZombieMark, ReplacePtr, ReplaceAlloc, PutFlag, PtrOk;
    BareFields(c, op.p, op.a);
    DataSet(c, Bare(c, op.p, op.a), op.data);
  }

  lemma SetPtrAgrees(c: Layout, g: Plain, w: Packed, op: Change)
    requires Rel(c, g, w) && op.SetPtr? && ChangeOk(c, g.isZombie, op)
    ensures Rel(c, PlainSet(g, op), PackedSet(c, w, op))
  {
    hide DataOf, WithData, Bare, PtrOf, AllocOf, FlagsOf, AllocOk, ZombieMark, ReplacePtr, ReplaceAlloc, PutFlag, PtrOk;
    PtrSet(c, w, op.p);
    SameWords(c, w, w.(ptr := ReplacePtr(w.ptr, op.p)));
  }

  lemma SetAllocAgrees(c: Layout, g: Plain, w: Packed, op: Change)
    requires Rel(c, g, w) && op.SetAlloc? && ChangeOk(c, g.isZombie, op)
    ensures Rel(c, PlainSet(g, op), PackedSet(c, w, op))
  {
    hide DataOf, WithData, Bare, PtrOf, AllocOf, FlagsOf, AllocOk, ZombieMark, ReplacePtr, ReplaceAlloc, PutFlag, PtrOk;
    AllocSet(c, w, op.a);
    SameWords(c, w, w.(allocptr := ReplaceAlloc(w.allocptr, op.a, c.low)));
  }

  lemma SetFlagAgrees(c: Layout, g: Plain, w: Packed, op: Change)
    requires Rel(c, g, w) && op.SetFlag? && ChangeOk(c, g.isZombie, op)
    ensures Rel(c, PlainSet(g, op), PackedSet(c, w, op))
  {
    hide DataOf, WithData, Bare, PtrOf, AllocOf, FlagsOf, AllocOk, ZombieMark, ReplacePtr, ReplaceAlloc, PutFlag, PtrOk;
    FlagSet(c, w, true);
    SameWords(c, w, w.(allocptr := PutFlag(w.allocptr, true)));
  }

  lemma UnsetFlagAgrees(c: Layout, g: Plain, w: Packed, op: Change)
    requires Rel(c, g, w) && op.UnsetFlag? && ChangeOk(c, g.isZombie, op)
    ensures Rel(c, PlainSet(g, op), PackedSet(c, w, op))
  {
    hide DataOf, WithData, Bare, PtrOf, AllocOf, FlagsOf, AllocOk, ZombieMark, ReplacePtr, ReplaceAlloc, PutFlag, PtrOk;
    FlagSet(c, w, false);
    SameWords(c, w, w.(allocptr := PutFlag(w.allocptr, false)));
  }

  lemma SetDataAgrees(c: Layout, g: Plain, w: Packed, op: Change)
    requires Rel(c, g, w) && op.SetData? && ChangeOk(c, g.isZombie, op)
    ensures Rel(c, PlainSet(g, op), PackedSet(c, w, op))
  {
    hide DataOf, WithData, Bare, PtrOf, AllocOf, FlagsOf, AllocOk, ZombieMark, ReplacePtr, ReplaceAlloc, PutFlag, PtrOk;
    DataSet(c, w, op.data);
  }

  lemma SetZombieAgrees(c: Layout, g: Plain, w: Packed, op: Change)
    requires Rel(c, g, w) && op.SetZombie? && ChangeOk(c, g.isZombie, op)
    ensures Rel(c, PlainSet(g, op), PackedSet(c, w, op))
  {
    hide DataOf, WithData, Bare, PtrOf, AllocOf, FlagsOf, AllocOk, ZombieMark, ReplacePtr, ReplaceAlloc, PutFlag, PtrOk;
    ZombieSet(c, w);
    SameWords(c, w, w.(ptr := ZombieMark(c.low)));
  }

  lemma SetterAgrees(c: Layout, g: Plain, w: Packed, op: Change)
    requires Rel(c, g, w) && ChangeOk(c, g.isZombie, op)
    ensures Rel(c, PlainSet(g, op), PackedSet(c, w, op))
  {
    hide Rel, PlainSet, PackedSet, ChangeOk, Sizes;
    match op
    case Init => InitAgrees(c, g, w, op);
    case InitData(_) => InitDataAgrees(c, g, w, op);
    case InitAll(_, _, _) => InitAllAgrees(c, g, w, op);
    case SetPtr(_) => SetPtrAgrees(c, g, w, op);
    case SetAlloc(_) => SetAllocAgrees(c, g, w, op);
    case SetFlag => SetFlagAgrees(c, g, w, op);
    case UnsetFlag => UnsetFlagAgrees(c, g, w, op);
    case SetData(_) => SetDataAgrees(c, g, w, op);
    case SetZombie => SetZombieAgrees(c, g, w, op);
  }

  lemma NullOk(c: Layout)
    ensures PtrOk(c, 0)
  {
  }

  lemma SameWords(c: Layout, v: Packed, w: Packed)
    ensures v.ptr == w.ptr ==> PtrOf(v) == PtrOf(w)
    ensures v.allocptr == w.allocptr ==> AllocOf(c, v) == AllocOf(c, w) && FlagsOf(c, v) == FlagsOf(c, w)
  {
    hide Field;
  }

  // Each query, on one object in both forms.

  lemma IsZombieAgrees(c: Layout, g: Plain, w: Packed, op: Query)
    requires Rel(c, g, w) && op.IsZombie? && QueryOk(c, g.isZombie, op)
    ensures PlainGet(g, op) == PackedGet(c, w, op)
  {
    hide DataOf, PtrOf, AllocOf, FlagsOf, ZombieMark, HasBit, PtrOk;
  }

  lemma GetPtrAgrees(c: Layout, g: Plain, w: Packed, op: Query)
    requires Rel(c, g, w) && op.GetPtr? && QueryOk(c, g.isZombie, op)
    ensures PlainGet(g, op) == PackedGet(c, w, op)
  {
    hide DataOf, PtrOf, AllocOf, FlagsOf, ZombieMark, HasBit, PtrOk;
  }

  lemma GetAllocAgrees(c: Layout, g: Plain, w: Packed, op: Query)
    requires Rel(c, g, w) && op.GetAlloc? && QueryOk(c, g.isZombie, op)
    ensures PlainGet(g, op) == PackedGet(c, w, op)
  {
    hide DataOf, PtrOf, AllocOf, FlagsOf, ZombieMark, HasBit, PtrOk;
  }

  lemma GetDereferencableAllocAgrees(c: Layout, g: Plain, w: Packed, op: Query)
    requires Rel(c, g, w) && op.GetDereferencableAlloc? && QueryOk(c, g.isZombie, op)
    ensures PlainGet(g, op) == PackedGet(c, w, op)
  {
    hide DataOf, PtrOf, AllocOf, FlagsOf, ZombieMark, HasBit, PtrOk;
  }

  lemma GetDataAgrees(c: Layout, g: Plain, w: Packed, op: Query)
    requires Rel(c, g, w) && op.GetData? && QueryOk(c, g.isZombie, op)
    ensures PlainGet(g, op) == PackedGet(c, w, op)
  {
    hide DataOf, PtrOf, AllocOf, FlagsOf, ZombieMark, HasBit, PtrOk;
  }

  lemma GetDereferencableAgrees(c: Layout, g: Plain, w: Packed, op: Query)
    requires Rel(c, g, w) && op.GetDereferencable?
    ensures PlainGet(g, op) == PackedGet(c, w, op)
  {
    hide DataOf, PtrOf, AllocOf, FlagsOf, ZombieMark, HasBit, Above;
    NullNotAbove(ZombieMark(c.low));
    NotAboveItself(ZombieMark(c.low));
  }

  lemma NotAboveItself(mark: Word)
    ensures !Above(mark, mark)
  {
  }

  lemma HasFlagAgrees(c: Layout, g: Plain, w: Packed, op: Query)
    requires Rel(c, g, w) && op.HasFlag? && QueryOk(c, g.isZombie, op)
    ensures PlainGet(g, op) == PackedGet(c, w, op)
  {
    hide DataOf, PtrOf, AllocOf, FlagsOf, ZombieMark, HasBit, PtrOk;
    FlagIsBit(c, w);
  }

  lemma FlagIsBit(c: Layout, w: Packed)
    requires c.nf == 1
    ensures HasBit(FlagsOf(c, w)) == HasBit(w.allocptr)
  {
  }

  lemma GetterAgrees(c: Layout, g: Plain, w: Packed, op: Query)
    requires Rel(c, g, w) && QueryOk(c, g.isZombie, op)
    ensures PlainGet(g, op) == PackedGet(c, w, op)
  {
    hide Rel, PlainGet, PackedGet, QueryOk, Sizes;
    match op
    case IsZombie => IsZombieAgrees(c, g, w, op);
    case GetPtr => GetPtrAgrees(c, g, w, op);
    case GetDereferencable => GetDereferencableAgrees(c, g, w, op);
    case GetAlloc => GetAllocAgrees(c, g, w, op);
    case GetDereferencableAlloc => GetDereferencableAllocAgrees(c, g, w, op);
    case HasFlag => HasFlagAgrees(c, g, w, op);
    case GetData => GetDataAgrees(c, g, w, op);
  }

  // ---------------------------------------------------------------- simulation

  /** One step, on any number of objects, self-copies, self-moves and self-swaps included. */
  lemma StepAgrees(c: Layout, s: seq<Plain>, t: seq<Packed>, op: Op)
    requires RelAll(c, s, t) && Legal(c, s, op)
    ensures PlainStep(s, op).1 == PackedStep(c, t, op).1
    ensures RelAll(c, PlainStep(s, op).0, PackedStep(c, t, op).0)
  {
    hide PlainSet, PackedSet, PlainGet, PackedGet, ChangeOk, QueryOk, Rel, Sizes, Undead;
    match op
    case Apply(i, change) => SetterAgrees(c, s[i], t[i], change);
    case Ask(i, query) => GetterAgrees(c, s[i], t[i], query);
    case Pair(i, how, j) =>
      ZombiesAgree(c, s[i], t[i]);
      ZombiesAgree(c, s[j], t[j]);
      EmptyAgrees(c);
  }

  lemma ZombiesAgree(c: Layout, g: Plain, w: Packed)
    requires Rel(c, g, w)
    ensures g.isZombie == Undead(c, w)
  {
  }

  lemma EmptyAgrees(c: Layout)
    ensures Rel(c, PLAIN_EMPTY, EMPTY)
  {
    hide DataOf, PtrOf, AllocOf, FlagsOf, ZombieMark, PtrOk;
    EmptyFields(c);
    NullOk(c);
  }

  function PlainRun(s: seq<Plain>, ops: seq<Op>): (seq<Plain>, seq<Outcome>)
    requires forall op | op in ops :: InRange(|s|, op)
    decreases |ops|
  {
    if ops == [] then (s, []) else
      var (s1, out) := PlainStep(s, ops[0]);
      var (s2, outs) := PlainRun(s1, ops[1..]);
      (s2, [out] + outs)
  }

  function PackedRun(c: Layout, s: seq<Packed>, ops: seq<Op>): (seq<Packed>, seq<Outcome>)
    requires forall op | op in ops :: InRange(|s|, op)
    decreases |ops|
  {
    if ops == [] then (s, []) else
      var (s1, out) := PackedStep(c, s, ops[0]);
      var (s2, outs) := PackedRun(c, s1, ops[1..]);
      (s2, [out] + outs)
  }

  ghost predicate LegalRun(c: Layout, s: seq<Plain>, ops: seq<Op>)
    requires forall op | op in ops :: InRange(|s|, op)
    decreases |ops|
  {
    ops == [] || (Legal(c, s, ops[0]) && LegalRun(c, PlainStep(s, ops[0]).0, ops[1..]))
  }

  /** Every legal program gets the same answers and the same errors from both forms. */
  lemma {:induction false} RunsAgree(c: Layout, s: seq<Plain>, t: seq<Packed>, ops: seq<Op>)
    requires RelAll(c, s, t)
    requires forall op | op in ops :: InRange(|s|, op)
    requires LegalRun(c, s, ops)
    ensures PlainRun(s, ops).1 == PackedRun(c, t, ops).1
    ensures RelAll(c, PlainRun(s, ops).0, PackedRun(c, t, ops).0)
    decreases |ops|
  {
    hide Legal, RelAll, PlainStep, PackedStep, Sizes;
    SameLength(c, s, t);
    if ops != [] {
      StepAgrees(c, s, t, ops[0]);
      StepKeepsLength(c, s, t, ops[0]);
      RunsAgree(c, PlainStep(s, ops[0]).0, PackedStep(c, t, ops[0]).0, ops[1..]);
    }
  }

  lemma SameLength(c: Layout, s: seq<Plain>, t: seq<Packed>)
    requires RelAll(c, s, t)
    ensures |s| == |t|
  {
  }

  lemma StepKeepsLength(c: Layout, s: seq<Plain>, t: seq<Packed>, op: Op)
    requires InRange(|s|, op) && |s| == |t|
    ensures |PlainStep(s, op).0| == |s| && |PackedStep(c, t, op).0| == |t|
  {
    hide PlainSet, PackedSet, PlainGet, PackedGet, Sizes, Undead;
  }

  /** Freshly constructed objects are related, so whole programs agree from the start. */
  lemma ProgramsAgree(c: Layout, n: nat, ops: seq<Op>)
    requires forall op | op in ops :: InRange(n, op)
    requires LegalRun(c, seq(n, _ => PLAIN_EMPTY), ops)
    ensures PlainRun(seq(n, _ => PLAIN_EMPTY), ops).1 == PackedRun(c, seq(n, _ => EMPTY), ops).1
  {
    hide Rel, Sizes, LegalRun, PlainRun, PackedRun;
    EmptyAgrees(c);
    RunsAgree(c, seq(n, _ => PLAIN_EMPTY), seq(n, _ => EMPTY), ops);
  }

  // ---------------------------------------------------------------- where the two forms part

  /** set_ptr brings a packed zombie back to life but not a plain one: afterwards the two
      still match if and only if the object was no zombie. */
  lemma SetPtrOnZombie(c: Layout, g: Plain, w: Packed, p: Word)
    requires Rel(c, g, w) && PtrOk(c, p)
    ensures Rel(c, PlainSet(g, SetPtr(p)), PackedSet(c, w, SetPtr(p))) <==> !g.isZombie
  {
    hide DataOf, PtrOf, AllocOf, FlagsOf, ZombieMark, PtrOk, ReplacePtr;
    PtrSet(c, w, p);
    SameWords(c, w, w.(ptr := ReplacePtr(w.ptr, p)));
  }

  /** set_zombie wipes the data bits kept in the pointer word: asked for its data afterwards,
      an object gives the same answer in both forms if and only if those bits were zero. */
  lemma GetDataOnZombie(c: Layout, g: Plain, w: Packed)
    requires Rel(c, g, w) && !g.isZombie
    ensures PlainGet(PlainSet(g, SetZombie), GetData) == PackedGet(c, PackedSet(c, w, SetZombie), GetData)
       <==> g.data & 0xFFFF == 0
  {
    hide DataOf, PtrOf, AllocOf, FlagsOf, ZombieMark, PtrOk, Wiped, LowBitsClear;
    ZombieSet(c, w);
    WipedIsSame(g.data);
    LowBits(g.data);
  }

  lemma LowBits(data: Word)
    ensures LowBitsClear(data) <==> data & 0xFFFF == 0
  {
  }

  /** A 48-bit pointer stored in both forms is seen alike by is_zombie and
      get_dereferencable_ptr if and only if it is null or lies above the zombie mark. */
  lemma PointersBelowTheMark(c: Layout, p: Word, a: Word, data: Word)
    requires p <= 0xFFFF_FFFF_FFFF && data <= 0xFFFF_FFFF
    ensures var g, w := PlainSet(PLAIN_EMPTY, InitAll(p, a, data)), PackedSet(c, EMPTY, InitAll(p, a, data));
            PlainGet(g, IsZombie) == PackedGet(c, w, IsZombie)
            && PlainGet(g, GetDereferencable) == PackedGet(c, w, GetDereferencable)
            <==> p == 0 || p > (1 << c.low)
  {
    hide DataOf, AllocOf, FlagsOf, ZombieMark, WithData, Bare, PtrOf, PackedGet, Above;
    AboveMark(c.low, p);
    StoredPtr(c, p, a, data);
    MarkSeen(c, p, WithData(c, Bare(c, p, a), data));
  }

  lemma AboveMark(low: Word, p: Word)
    requires low <= 16
    ensures Above(p, ZombieMark(low)) <==> p > (1 << low)
  {
  }

  lemma MarkSeen(c: Layout, p: Word, w: Packed)
    requires PtrOf(w) == p && p <= PTR_MASK
    ensures PackedGet(c, w, IsZombie) == Answer(p == ZombieMark(c.low))
    ensures (PackedGet(c, w, GetDereferencable) == if p != 0 then Value(p) else Raised(ZeroPointer)) <==> PtrOk(c, p)
    ensures PtrOk(c, p) ==> p != ZombieMark(c.low)
  {
    hide ZombieMark, PtrOf, Above;
    MarkInRange(c.low);
    NotAboveItself(ZombieMark(c.low));
    NullNotAbove(ZombieMark(c.low));
  }

  lemma NullNotAbove(mark: Word)
    ensures !Above(0, mark)
  {
  }

  lemma StoredPtr(c: Layout, p: Word, a: Word, data: Word)
    requires p <= PTR_MASK && data <= MAX_DATA
    ensures PtrOf(WithData(c, Bare(c, p, a), data)) == p
  {
    hide DataOf, AllocOf, FlagsOf, WithData, Field;
    DataSet(c, Bare(c, p, a), data);
    SmallIsWhole(p);
    FieldTwice(p, PTR_MASK);
  }
}
