/** The one-word tagged pointers against their plain twins, with the exact conditions under
    which the two part (include/tagged_ptr_impl.h:204-381, 434-504). `e` is the exponent of
    the guaranteed allocation alignment; the zombie mark is 1 << e. */
module TaggedOneWord {
  import opened TaggedWords
  import opened TaggedPointers

  // ---------------------------------------------------------------- pointer, 16 data bits, zombie

  /** generic_allocptr_with_zombie_property_and_data_. */
  datatype PlainData = PlainData(ptr: Word, data: Word, isZombie: bool)

  const NOTHING := PlainData(0, 0, false)

  const ALIGNED_PTR: Word := 0x0000_FFFF_FFFF_FFF8

  function Raised48(data: Word): Word { data << 48 }
  function Store(p: Word, data: Word): Word { p | Raised48(data) }
  function LoadPtr(w: Word): Word { w & ALIGNED_PTR }
  function LoadData(w: Word): Word { w >> 48 }
  function StoreData(w: Word, data: Word): Word { LowerOf(w) | Raised48(data) }
  /** The word without its data bits. */
  function LowerOf(w: Word): Word { Field(w, PTR_MASK) }

  predicate Exponent(e: Word) { 3 <= e <= 16 }

  predicate Aligned(e: Word, p: Word)
    requires Exponent(e)
  {
    p & !ALIGNED_PTR == 0 && (p == 0 || p > ZombieMark(e))
  }

  datatype DataOp =
    | Put(i: nat, p: Word, data: Word)
    | Reset(i: nat)
    | Kill(i: nat)
    | PutData(i: nat, data: Word)
    | Both(i: nat, how: PairOp, j: nat)
    | AskZombie(i: nat)
    | AskPtr(i: nat)
    | AskDereferencable(i: nat)
    | AskData(i: nat)

  predicate DataRange(n: nat, op: DataOp) { op.i < n && (op.Both? ==> op.j < n) }

  predicate DataArgs(e: Word, n: nat, op: DataOp)
    requires Exponent(e)
  {
    && DataRange(n, op)
    && (op.Put? ==> Aligned(e, op.p) && op.data <= 0xFFFF)
    && (op.PutData? ==> op.data <= 0xFFFF)
  }

  function PlainDataStep(s: seq<PlainData>, op: DataOp): (seq<PlainData>, Outcome)
    requires DataRange(|s|, op)
  {
    var g := s[op.i];
    match op
    case Put(i, p, data) => (s[i := PlainData(p, data, false)], Done)
    case Reset(i) => (s[i := NOTHING], Done)
    case Kill(i) => (s[i := g.(isZombie := true)], Done)
    case PutData(i, data) => if !g.isZombie then (s[i := g.(data := data)], Done) else (s, Raised(LateZombie))
    case Both(i, how, j) =>
      if g.isZombie || s[j].isZombie then (s, Raised(LateZombie))
      else (match how
        case CopyFrom => (s[i := s[j]], Done)
        case MoveFrom => (s[i := s[j]][j := NOTHING], Done)
        case Swap => (s[i := s[j]][j := s[i]], Done))
    case AskZombie(i) => (s, Answer(g.isZombie))
    case AskPtr(i) => (s, if !g.isZombie then Value(g.ptr) else Raised(LateZombie))
    case AskDereferencable(i) => (s, if !(g.isZombie || g.ptr == 0) then Value(g.ptr) else NullptrOrZombie(g.isZombie))
    case AskData(i) => (s, if !g.isZombie then Value(g.data) else Raised(LateZombie))
  }

  /** optimized_alloc_ptr_with_zombie_property_and_data_: note the self-move test at 323
      and the unmasked comparison at 370. */
  function WordStep(e: Word, s: seq<Word>, op: DataOp): (seq<Word>, Outcome)
    requires Exponent(e) && DataRange(|s|, op)
  {
    var w, mark := s[op.i], ZombieMark(e);
    match op
    case Put(i, p, data) => (s[i := Store(p, data)], Done)
    case Reset(i) => (s[i := 0], Done)
    case Kill(i) => (s[i := mark], Done)
    case PutData(i, data) => if w != mark then (s[i := StoreData(w, data)], Done) else (s, Raised(LateZombie))
    case Both(i, how, j) =>
      if how == MoveFrom && i == j then (s, Done)
      else if w == mark || s[j] == mark then (s, Raised(LateZombie))
      else (match how
        case CopyFrom => (s[i := s[j]], Done)
        case MoveFrom => (s[i := s[j]][j := 0], Done)
        case Swap => (s[i := s[j]][j := s[i]], Done))
    case AskZombie(i) => (s, Answer(w == mark))
    case AskPtr(i) => (s, if w != mark then Value(LoadPtr(w)) else Raised(LateZombie))
    case AskDereferencable(i) => (s, if Above(w, mark) then Value(LoadPtr(w)) else NullptrOrZombie(w == mark))
    case AskData(i) => (s, if w != mark then Value(LoadData(w)) else Raised(LateZombie))
  }

  ghost predicate Same(e: Word, g: PlainData, w: Word)
    requires Exponent(e)
  {
    && g.isZombie == (w == ZombieMark(e))
    && (!g.isZombie ==> Aligned(e, g.ptr) && g.data <= 0xFFFF && w == Store(g.ptr, g.data))
  }

  ghost predicate SameAll(e: Word, s: seq<PlainData>, t: seq<Word>)
    requires Exponent(e)
  {
    |s| == |t| && forall k | 0 <= k < |s| :: Same(e, s[k], t[k])
  }

  /** The two departures: a self-move of anything but an empty object (the plain form
      empties it, or raises for a zombie; the word form does nothing), and dereferencing a
      null pointer with non-zero data (the word form hands out null). */
  predicate Harmless(s: seq<PlainData>, op: DataOp)
    requires DataRange(|s|, op)
  {
    match op
    case Both(i, how, j) => how == MoveFrom && i == j ==> s[i] == NOTHING
    case AskDereferencable(i) => s[i].isZombie || s[i].ptr != 0 || s[i].data == 0
    case _ => true
  }

  // ---------------------------------------------------------------- words

  lemma Stored(e: Word, p: Word, data: Word)
    requires Exponent(e) && Aligned(e, p) && data <= 0xFFFF
    ensures LoadPtr(Store(p, data)) == p && LoadData(Store(p, data)) == data
    ensures Store(p, data) != ZombieMark(e)
    ensures Above(Store(p, data), ZombieMark(e)) <==> !(p == 0 && data == 0)
  {
    StoredParts(p, data);
    StoredAbove(ZombieMark(e), p, data);
    MarkSmall(e);
  }

  lemma StoredParts(p: Word, data: Word)
    requires p & !ALIGNED_PTR == 0 && data <= 0xFFFF
    ensures LoadPtr(Store(p, data)) == p && LoadData(Store(p, data)) == data
  {
  }

  lemma MarkSmall(e: Word)
    requires Exponent(e)
    ensures 0 < ZombieMark(e) <= 0x1_0000
  {
  }

  lemma StoredAbove(mark: Word, p: Word, data: Word)
    requires 0 < mark <= 0x1_0000 && (p == 0 || p > mark) && data <= 0xFFFF
    ensures Above(Store(p, data), mark) <==> !(p == 0 && data == 0)
    ensures Store(p, data) != mark
  {
  }

  lemma RaisedIsUpper(data: Word)
    ensures Field(Raised48(data), PTR_MASK) == 0
  {
  }

  lemma PtrIsLower(p: Word)
    requires p & !ALIGNED_PTR == 0
    ensures Field(p, PTR_MASK) == p
  {
  }

  lemma LowerKept(p: Word, x: Word, m: Word)
    requires Field(p, m) == p && Field(x, m) == 0
    ensures Field(p | x, m) == p
  {
  }

  lemma LowerOfStore(p: Word, was: Word)
    requires p & !ALIGNED_PTR == 0
    ensures LowerOf(Store(p, was)) == p
  {
    hide Raised48, Field;
    RaisedIsUpper(was);
    PtrIsLower(p);
    LowerKept(p, Raised48(was), PTR_MASK);
  }

  lemma DataReplaced(p: Word, was: Word, data: Word)
    requires p & !ALIGNED_PTR == 0
    ensures StoreData(Store(p, was), data) == Store(p, data)
  {
    hide Raised48, LowerOf;
    LowerOfStore(p, was);
  }

  // ---------------------------------------------------------------- exact agreement

  /** Related objects that hold no zombie, in words. */
  lemma Facts(e: Word, g: PlainData, w: Word)
    requires Exponent(e) && Same(e, g, w)
    ensures g.isZombie <==> w == ZombieMark(e)
    ensures !g.isZombie ==> LoadPtr(w) == g.ptr && LoadData(w) == g.data
    ensures !g.isZombie ==> (Above(w, ZombieMark(e)) <==> !(g.ptr == 0 && g.data == 0))
    ensures g.isZombie ==> !Above(w, ZombieMark(e))
  {
    hide LoadPtr, LoadData, Store, ZombieMark, Above;
    if !g.isZombie {
      Stored(e, g.ptr, g.data);
    }
    NotAboveItself(ZombieMark(e));
  }

  lemma PutSame(e: Word, p: Word, data: Word)
    requires Exponent(e) && Aligned(e, p) && data <= 0xFFFF
    ensures Same(e, PlainData(p, data, false), Store(p, data))
  {
    hide LoadPtr, LoadData, Store, ZombieMark, Above;
    Stored(e, p, data);
  }

  lemma NothingSame(e: Word, g: PlainData)
    requires Exponent(e)
    ensures Same(e, g, 0) <==> g.ptr == 0 && g.data == 0 && !g.isZombie
    ensures Same(e, g, ZombieMark(e)) <== g.isZombie
  {
    hide ZombieMark, LoadPtr, LoadData;
    MarkSmall(e);
    StoreZero(g.ptr, g.data);
  }

  lemma StoreZero(p: Word, data: Word)
    ensures p & !ALIGNED_PTR == 0 && data <= 0xFFFF ==> (Store(p, data) == 0 <==> p == 0 && data == 0)
    ensures (0 as Word) & !ALIGNED_PTR == 0
  {
  }

  lemma PutDataSame(e: Word, g: PlainData, w: Word, data: Word)
    requires Exponent(e) && Same(e, g, w) && !g.isZombie && data <= 0xFFFF
    ensures Same(e, g.(data := data), StoreData(w, data))
  {
    hide LoadPtr, LoadData, Store, StoreData, ZombieMark, Above;
    DataReplaced(g.ptr, g.data, data);
    PutSame(e, g.ptr, data);
  }

  lemma SetTogether(e: Word, s: seq<PlainData>, t: seq<Word>, op: DataOp)
    requires Exponent(e) && SameAll(e, s, t) && DataArgs(e, |s|, op) && Harmless(s, op)
    requires op.Put? || op.Reset? || op.Kill? || op.PutData?
    ensures PlainDataStep(s, op).1 == WordStep(e, t, op).1
    ensures SameAll(e, PlainDataStep(s, op).0, WordStep(e, t, op).0)
  {
    hide Same, Store, StoreData, LoadPtr, LoadData, ZombieMark, Aligned, Above;
    Facts(e, s[op.i], t[op.i]);
    NothingSame(e, NOTHING);
    match op
    case Put(i, p, data) => PutSame(e, p, data);
    case Reset(_) =>
    case Kill(i) => NothingSame(e, s[i].(isZombie := true));
    case PutData(i, data) => if !s[i].isZombie { PutDataSame(e, s[i], t[i], data); }
  }

  lemma PairTogether(e: Word, s: seq<PlainData>, t: seq<Word>, op: DataOp)
    requires Exponent(e) && SameAll(e, s, t) && DataArgs(e, |s|, op) && Harmless(s, op)
    requires op.Both?
    ensures PlainDataStep(s, op).1 == WordStep(e, t, op).1
    ensures SameAll(e, PlainDataStep(s, op).0, WordStep(e, t, op).0)
  {
    hide Same, Store, StoreData, LoadPtr, LoadData, ZombieMark, Aligned, Above;
    NothingSame(e, NOTHING);
    Facts(e, s[op.i], t[op.i]);
    Facts(e, s[op.j], t[op.j]);
  }

  lemma AskTogether(e: Word, s: seq<PlainData>, t: seq<Word>, op: DataOp)
    requires Exponent(e) && SameAll(e, s, t) && DataArgs(e, |s|, op) && Harmless(s, op)
    requires op.AskZombie? || op.AskPtr? || op.AskDereferencable? || op.AskData?
    ensures PlainDataStep(s, op).1 == WordStep(e, t, op).1
    ensures SameAll(e, PlainDataStep(s, op).0, WordStep(e, t, op).0)
  {
    hide Same, Store, StoreData, LoadPtr, LoadData, ZombieMark, Aligned, Above;
    Facts(e, s[op.i], t[op.i]);
  }

  /** A harmless step keeps the two forms together. */
  lemma DataStepTogether(e: Word, s: seq<PlainData>, t: seq<Word>, op: DataOp)
    requires Exponent(e) && SameAll(e, s, t) && DataArgs(e, |s|, op) && Harmless(s, op)
    ensures PlainDataStep(s, op).1 == WordStep(e, t, op).1
    ensures SameAll(e, PlainDataStep(s, op).0, WordStep(e, t, op).0)
  {
    hide SameAll, PlainDataStep, WordStep, DataArgs, Harmless;
    if op.Both? {
      PairTogether(e, s, t, op);
    } else if op.Put? || op.Reset? || op.Kill? || op.PutData? {
      SetTogether(e, s, t, op);
    } else {
      AskTogether(e, s, t, op);
    }
  }

  /** And a harmful one drives them apart: the condition is exact. */
  lemma DataStepExact(e: Word, s: seq<PlainData>, t: seq<Word>, op: DataOp)
    requires Exponent(e) && SameAll(e, s, t) && DataArgs(e, |s|, op)
    ensures PlainDataStep(s, op).1 == WordStep(e, t, op).1 && SameAll(e, PlainDataStep(s, op).0, WordStep(e, t, op).0)
       <==> Harmless(s, op)
  {
    hide Same, Store, StoreData, LoadPtr, LoadData, ZombieMark, Aligned, Above;
    if Harmless(s, op) {
      DataStepTogether(e, s, t, op);
    } else {
      Facts(e, s[op.i], t[op.i]);
      if !s[op.i].isZombie {
        HarmfulSelfMove(e, s[op.i], t[op.i]);
      }
    }
  }

  /** A self-move leaves the plain object empty and the word as it was. */
  lemma HarmfulSelfMove(e: Word, g: PlainData, w: Word)
    requires Exponent(e) && Same(e, g, w) && !g.isZombie
    ensures Same(e, NOTHING, w) ==> g == NOTHING
  {
  }

  // ---------------------------------------------------------------- the answers themselves

  /** What an object says after init with an aligned pointer: the masks are written out. */
  lemma PutAnswers(e: Word, s: seq<PlainData>, t: seq<Word>, i: nat, p: Word, data: Word)
    requires 3 <= e <= 16 && i < |s| == |t| && data <= 0xFFFF
    requires p & !0x0000_FFFF_FFFF_FFF8 == 0 && (p == 0 || p > 1 << e)
    ensures var s', t' := PlainDataStep(s, Put(i, p, data)).0, WordStep(e, t, Put(i, p, data)).0;
            && PlainDataStep(s', AskZombie(i)).1 == WordStep(e, t', AskZombie(i)).1 == Answer(false)
            && PlainDataStep(s', AskPtr(i)).1 == WordStep(e, t', AskPtr(i)).1 == Value(p)
            && PlainDataStep(s', AskData(i)).1 == WordStep(e, t', AskData(i)).1 == Value(data)
            && (p != 0 || data == 0 ==>
                  && PlainDataStep(s', AskDereferencable(i)).1 == WordStep(e, t', AskDereferencable(i)).1
                  && PlainDataStep(s', AskDereferencable(i)).1 == if p == 0 then Raised(ZeroPointer) else Value(p))
  {
    hide Store, LoadPtr, LoadData, ZombieMark, Above, StoreData;
    MarkIs(e, p);
    Stored(e, p, data);
  }

  lemma MarkIs(e: Word, p: Word)
    requires 3 <= e <= 16
    ensures ZombieMark(e) == 1 << e
  {
  }

  /** A zombie raises the late-zombie error at every access, until it is initialised again. */
  lemma KillAnswers(e: Word, s: seq<PlainData>, t: seq<Word>, i: nat)
    requires 3 <= e <= 16 && i < |s| == |t|
    ensures var s', t' := PlainDataStep(s, Kill(i)).0, WordStep(e, t, Kill(i)).0;
            && t'[i] == 1 << e
            && PlainDataStep(s', AskZombie(i)).1 == WordStep(e, t', AskZombie(i)).1 == Answer(true)
            && PlainDataStep(s', AskPtr(i)).1 == WordStep(e, t', AskPtr(i)).1 == Raised(LateZombie)
            && PlainDataStep(s', AskData(i)).1 == WordStep(e, t', AskData(i)).1 == Raised(LateZombie)
            && PlainDataStep(s', AskDereferencable(i)).1 == WordStep(e, t', AskDereferencable(i)).1 == Raised(LateZombie)
            && forall data :: PlainDataStep(s', PutData(i, data)) == (s', Raised(LateZombie))
                           && WordStep(e, t', PutData(i, data)) == (t', Raised(LateZombie))
  {
    hide LoadPtr, LoadData, ZombieMark, Above, StoreData, Store;
    MarkIs(e, 0);
    NotAboveItself(ZombieMark(e));
  }

  /** After reset an object is null, without data, and no zombie. */
  lemma ResetAnswers(e: Word, s: seq<PlainData>, t: seq<Word>, i: nat)
    requires 3 <= e <= 16 && i < |s| == |t|
    ensures var s', t' := PlainDataStep(s, Reset(i)).0, WordStep(e, t, Reset(i)).0;
            && PlainDataStep(s', AskZombie(i)).1 == WordStep(e, t', AskZombie(i)).1 == Answer(false)
            && PlainDataStep(s', AskPtr(i)).1 == WordStep(e, t', AskPtr(i)).1 == Value(0)
            && PlainDataStep(s', AskData(i)).1 == WordStep(e, t', AskData(i)).1 == Value(0)
            && PlainDataStep(s', AskDereferencable(i)).1 == WordStep(e, t', AskDereferencable(i)).1 == Raised(ZeroPointer)
  {
    hide LoadPtr, LoadData, ZombieMark, Above, StoreData, Store;
    StoreZero(0, 0);
    MarkIs(e, 0);
    MarkSmall(e);
    NullNotAbove(ZombieMark(e));
    StoredParts(0, 0);
  }

  /** Copy, move and swap between two objects: the words change hands, a moved-from object
      is as after reset, and with a zombie there is only the late-zombie error. */
  lemma OneWordPairs(e: Word, s: seq<PlainData>, t: seq<Word>, i: nat, how: PairOp, j: nat)
    requires 3 <= e <= 16 && i < |s| == |t| && j < |s| && i != j
    ensures var (s', out) := PlainDataStep(s, Both(i, how, j));
            if s[i].isZombie || s[j].isZombie then s' == s && out == Raised(LateZombie)
            else
              && out == Done && s'[i] == s[j]
              && s'[j] == if how.CopyFrom? then s[j] else if how.Swap? then s[i] else PlainData(0, 0, false)
    ensures var (t', out) := WordStep(e, t, Both(i, how, j));
            if t[i] == 1 << e || t[j] == 1 << e then t' == t && out == Raised(LateZombie)
            else
              && out == Done && t'[i] == t[j]
              && t'[j] == if how.CopyFrom? then t[j] else if how.Swap? then t[i] else 0
  {
    hide ZombieMark, LoadPtr, LoadData, StoreData, Store, Above;
    MarkIs(e, 0);
  }

  /** set_data on an object that is no zombie: the new data and the old pointer. */
  lemma PutDataAnswers(e: Word, s: seq<PlainData>, t: seq<Word>, i: nat, data: Word)
    requires Exponent(e) && SameAll(e, s, t) && i < |s| && !s[i].isZombie && data <= 0xFFFF
    ensures var s', t' := PlainDataStep(s, PutData(i, data)).0, WordStep(e, t, PutData(i, data)).0;
            && PlainDataStep(s', AskData(i)).1 == WordStep(e, t', AskData(i)).1 == Value(data)
            && PlainDataStep(s', AskPtr(i)).1 == WordStep(e, t', AskPtr(i)).1 == PlainDataStep(s, AskPtr(i)).1
  {
    hide Same, Store, LoadPtr, LoadData, ZombieMark, Above, StoreData;
    Facts(e, s[i], t[i]);
    PutDataSame(e, s[i], t[i], data);
    Facts(e, s[i].(data := data), StoreData(t[i], data));
  }

  // ---------------------------------------------------------------- whole programs

  lemma DataLengths(e: Word, s: seq<PlainData>, t: seq<Word>, op: DataOp)
    requires Exponent(e) && |s| == |t| && DataRange(|s|, op)
    ensures |PlainDataStep(s, op).0| == |s| && |WordStep(e, t, op).0| == |t|
  {
    hide Store, StoreData, LoadPtr, LoadData, ZombieMark, Above;
  }

  function PlainDataRun(s: seq<PlainData>, ops: seq<DataOp>): (seq<PlainData>, seq<Outcome>)
    requires forall op | op in ops :: DataRange(|s|, op)
    decreases |ops|
  {
    if ops == [] then (s, []) else
      var (s1, out) := PlainDataStep(s, ops[0]);
      var (s2, outs) := PlainDataRun(s1, ops[1..]);
      (s2, [out] + outs)
  }

  function WordRun(e: Word, t: seq<Word>, ops: seq<DataOp>): (seq<Word>, seq<Outcome>)
    requires Exponent(e) && forall op | op in ops :: DataRange(|t|, op)
    decreases |ops|
  {
    if ops == [] then (t, []) else
      var (t1, out) := WordStep(e, t, ops[0]);
      var (t2, outs) := WordRun(e, t1, ops[1..]);
      (t2, [out] + outs)
  }

  /** No step of the program is one of the two departures. */
  ghost predicate HarmlessRun(s: seq<PlainData>, ops: seq<DataOp>)
    requires forall op | op in ops :: DataRange(|s|, op)
    decreases |ops|
  {
    ops == [] || (Harmless(s, ops[0]) && HarmlessRun(PlainDataStep(s, ops[0]).0, ops[1..]))
  }

  /** Same answers, same errors and related objects at every step. */
  ghost predicate StayTogether(e: Word, s: seq<PlainData>, t: seq<Word>, ops: seq<DataOp>)
    requires Exponent(e) && |s| == |t| && forall op | op in ops :: DataRange(|s|, op)
    decreases |ops|
  {
    ops == [] ||
      (var (s1, out), (t1, out') := PlainDataStep(s, ops[0]), WordStep(e, t, ops[0]);
       out == out' && SameAll(e, s1, t1) && StayTogether(e, s1, t1, ops[1..]))
  }

  /** Programs over any number of objects: the two forms stay together if and only if no
      step is a departure. */
  lemma {:induction false} DataRunExact(e: Word, s: seq<PlainData>, t: seq<Word>, ops: seq<DataOp>)
    requires Exponent(e) && SameAll(e, s, t)
    requires forall op | op in ops :: DataRange(|s|, op) && DataArgs(e, |s|, op)
    ensures StayTogether(e, s, t, ops) <==> HarmlessRun(s, ops)
    decreases |ops|
  {
    hide SameAll, PlainDataStep, WordStep, Harmless, Exponent;
    SameSize(e, s, t);
    if ops != [] {
      DataLengths(e, s, t, ops[0]);
      DataStepExact(e, s, t, ops[0]);
      if Harmless(s, ops[0]) {
        DataRunExact(e, PlainDataStep(s, ops[0]).0, WordStep(e, t, ops[0]).0, ops[1..]);
      }
    }
  }

  lemma SameSize(e: Word, s: seq<PlainData>, t: seq<Word>)
    requires Exponent(e) && SameAll(e, s, t)
    ensures |s| == |t|
  {
  }

  lemma {:induction false} TogetherOutcomes(e: Word, s: seq<PlainData>, t: seq<Word>, ops: seq<DataOp>)
    requires Exponent(e) && |s| == |t| && forall op | op in ops :: DataRange(|s|, op)
    requires StayTogether(e, s, t, ops)
    ensures PlainDataRun(s, ops).1 == WordRun(e, t, ops).1
    decreases |ops|
  {
    hide SameAll, PlainDataStep, WordStep, Exponent;
    if ops != [] {
      DataLengths(e, s, t, ops[0]);
      TogetherOutcomes(e, PlainDataStep(s, ops[0]).0, WordStep(e, t, ops[0]).0, ops[1..]);
    }
  }

  /** From the constructors on, a harmless program gets the same answers and errors from both. */
  lemma DataProgramsAgree(e: Word, n: nat, ops: seq<DataOp>)
    requires Exponent(e) && forall op | op in ops :: DataRange(n, op) && DataArgs(e, n, op)
    requires HarmlessRun(seq(n, _ => NOTHING), ops)
    ensures PlainDataRun(seq(n, _ => NOTHING), ops).1 == WordRun(e, seq(n, _ => 0), ops).1
  {
    hide Same, Exponent, HarmlessRun, StayTogether, PlainDataRun, WordRun;
    NothingSame(e, NOTHING);
    DataRunExact(e, seq(n, _ => NOTHING), seq(n, _ => 0), ops);
    TogetherOutcomes(e, seq(n, _ => NOTHING), seq(n, _ => 0), ops);
  }

  // ---------------------------------------------------------------- pointer, mask and flags

  /** generic_allocated_ptr_with_mask_and_flags_. */
  datatype PlainMasked = PlainMasked(ptr: Word, mask: Word, flags: Word)

  ghost predicate SameMasked(low: Word, g: PlainMasked, w: Word)
    requires low <= 16
  {
    g.ptr == Field(w, AllocMask(low)) && g.mask == Field(w, (1 << low) - 1) && g.flags == w >> 48
  }

  /** set_ptr of the one-word form, include/tagged_ptr_impl.h:494. */
  function MaskedSetPtr(low: Word, w: Word, p: Word): Word
    requires low <= 16
  {
    (w & ((1 << low) - 1)) | (p & !((1 << low) - 1))
  }

  /** set_ptr drops the flags of the one-word form: the two forms still match afterwards if
      and only if no flag was set. */
  lemma SetPtrDropsFlags(low: Word, g: PlainMasked, w: Word, p: Word)
    requires 1 <= low <= 16 && SameMasked(low, g, w) && p & !AllocMask(low) == 0
    ensures SameMasked(low, g.(ptr := p), MaskedSetPtr(low, w, p)) <==> g.flags == 0
  {
    hide AllocMask;
    MaskedParts(low, w, p);
  }

  lemma MaskedParts(low: Word, w: Word, p: Word)
    requires 1 <= low <= 16 && p & !AllocMask(low) == 0
    ensures var r := MaskedSetPtr(low, w, p);
            Field(r, AllocMask(low)) == p && Field(r, (1 << low) - 1) == Field(w, (1 << low) - 1) && r >> 48 == 0
  {
  }
}
