/** Whole runs over any number of messages, and of folded images of messages, that share
    one heap. */
module MsgRuns {
  import opened PageMemory
  import opened MsgLayout
  import opened MsgImage
  import opened MsgCursor
  import opened InternalMsgModule

  /** What a message, or a pointer made from one, is worth to its user. */
  datatype Slot =
    /** the bytes of a message, and by how much its header counts too many entries */
    | Usable(bytes: seq<MemByte>, surplus: nat)
    /** application data was written to it while it was empty: it can only be cleared,
        overwritten or destroyed; `count` is its header's entry count */
    | Stale(count: nat)
    /** what convertToPointer returned, null for an empty message */
    | Folded(bytes: seq<MemByte>, surplus: nat)
    /** a destroyed message, or a pointer that was restored */
    | Gone

  datatype Pool = Pool(msgs: seq<Slot>, images: seq<Slot>)

  datatype Op =
    | AppendBytes(i: nat, bytes: seq<MemByte>)
    | AppendByte(i: nat, b: MemByte)
    | AppendRead(i: nat, j: nat, skip: nat, n: nat)  // iterator over j, skip, append n bytes to i
    | Move(i: nat, j: nat)                           // i = std::move( j )
    | Fold(i: nat)                                   // new image = i.convertToPointer()
    | Restore(i: nat, k: nat)                        // i.restoreFromPointer( image k )
    | WriteApp(i: nat, offset: nat, data: seq<MemByte>)
    | ClearMsg(i: nat)
    | Create
    | CreateFrom(j: nat)                             // InternalMsg( std::move( j ) )
    | Destroy(i: nat)

  function PagesFor(n: nat): nat {
    if n == 0 then 0 else (n + RESERVED + PAGE_SIZE - 1) / PAGE_SIZE
  }

  function HeaderCount(slot: Slot): nat {
    match slot
    case Usable(bytes, surplus) => Min(PagesFor(|bytes|), LOCAL_SLOTS) + surplus
    case Stale(count) => count
    case _ => 0
  }

  predicate Alive(slot: Slot) { slot.Usable? || slot.Stale? }

  /** The exact condition for reading a message: see MsgCursor.ReadsBackExactly. */
  predicate CanRead(slot: Slot) {
    slot.Usable? && (slot.surplus == 0 || PagesFor(|slot.bytes|) <= LOCAL_SLOTS)
  }

  ghost predicate Legal(p: Pool, op: Op) {
    var m := p.msgs;
    match op
    case AppendBytes(i, _) => i < |m| && m[i].Usable?
    case AppendByte(i, _) => i < |m| && m[i].Usable?
    case AppendRead(i, j, _, _) => i < |m| && j < |m| && m[i].Usable? && CanRead(m[j])
    case Move(i, j) => i < |m| && j < |m| && Alive(m[i]) && m[j].Usable?
    case Fold(i) => i < |m| && m[i].Usable?
    case Restore(i, k) => i < |m| && k < |p.images| && Alive(m[i]) && p.images[k].Folded?
    case WriteApp(i, offset, data) => i < |m| && m[i].Usable? && offset + |data| <= APP_RESERVED
    case ClearMsg(i) => i < |m| && Alive(m[i])
    case Create => true
    case CreateFrom(j) => j < |m| && m[j].Usable?
    case Destroy(i) => i < |m| && Alive(m[i])
  }

  const NEW := Usable([], 0)

  function Cleared(slot: Slot): Slot { Usable([], HeaderCount(slot)) }

  /** What restoring an image makes of a message. */
  function Unfolded(slot: Slot, image: Slot): Slot
    requires image.Folded?
  {
    if image.bytes == [] then Cleared(slot) else Usable(image.bytes, image.surplus)
  }

  /** The promise, on byte sequences alone. */
  ghost function Apply(p: Pool, op: Op): Pool
    requires Legal(p, op)
  {
    var m := p.msgs;
    match op
    case AppendBytes(i, bytes) => p.(msgs := m[i := Usable(m[i].bytes + bytes, m[i].surplus)])
    case AppendByte(i, b) => p.(msgs := m[i := Usable(m[i].bytes + [b], m[i].surplus)])
    case AppendRead(i, j, skip, n) =>
      var rest := m[j].bytes[Min(skip, |m[j].bytes|)..];
      p.(msgs := m[i := Usable(m[i].bytes + rest[..Min(n, |rest|)], m[i].surplus)])
    case Move(i, j) => if i == j then p else p.(msgs := m[i := m[j]][j := NEW])
    case Fold(i) =>
      if m[i].bytes == [] then p.(images := p.images + [Folded([], 0)])
      else Pool(m[i := NEW], p.images + [Folded(m[i].bytes, m[i].surplus)])
    case Restore(i, k) => Pool(m[i := Unfolded(m[i], p.images[k])], p.images[k := Gone])
    case WriteApp(i, _, _) => if m[i].bytes == [] then p.(msgs := m[i := Stale(m[i].surplus + 1)]) else p
    case ClearMsg(i) => p.(msgs := m[i := Cleared(m[i])])
    case Create => p.(msgs := m + [NEW])
    case CreateFrom(j) => p.(msgs := m[j := NEW] + [m[j]])
    case Destroy(i) => p.(msgs := m[i := Gone])
  }

  ghost predicate SlotOk(s: Snap, slot: Slot) {
    match slot
    case Usable(bytes, surplus) => WellFormed(s) && Contents(s) == bytes && Surplus(s) == surplus
    case Stale(count) => Releasable(s) && s.img.usedCnt == count
    case Folded(bytes, surplus) =>
      if bytes == [] then Releasable(s) && Owned(s) == {}
      else s.payload != [] && FoldedAt(s, s.payload[0]) && Contents(s) == bytes && Surplus(s) == surplus
    case Gone => Releasable(s) && Owned(s) == {}
  }

  ghost function AllOwned(ss: seq<Snap>): set<Ptr> {
    set i, p | 0 <= i < |ss| && p in Owned(ss[i]) :: p
  }

  /** Every message and image is what the model says, no page has two owners, and no page is lost. */
  ghost predicate PoolOk(pages: map<Ptr, Page>, ss: seq<Snap>, m: seq<Slot>) {
    && |ss| == |m|
    && (forall i | 0 <= i < |ss| :: ss[i].pages == pages && SlotOk(ss[i], m[i]))
    && (forall i, j | 0 <= i < j < |ss| :: Owned(ss[i]) !! Owned(ss[j]))
    && pages.Keys == AllOwned(ss)
  }

  /** A step that changes message i and the pages it owns, or takes pages from the heap. */
  ghost predicate ChangesOne(pages: map<Ptr, Page>, pages': map<Ptr, Page>, s: Snap, s': Snap) {
    && s.pages == pages && s'.pages == pages'
    && (forall p | p in pages && p !in Owned(s) :: p in pages' && pages'[p] == pages[p])
    && (forall p | p in Owned(s') && p !in Owned(s) :: p !in pages)
    && pages'.Keys == (pages.Keys - Owned(s)) + Owned(s')
  }

  ghost function Updated(ss: seq<Snap>, i: nat, s': Snap): (r: seq<Snap>)
    requires i < |ss|
    ensures |r| == |ss|
  {
    seq(|ss|, k requires 0 <= k < |ss| => if k == i then s' else ss[k].(pages := s'.pages))
  }

  lemma SlotFrame(s: Snap, slot: Slot, pages': map<Ptr, Page>)
    requires SlotOk(s, slot) && SameOn(s.pages, pages', Owned(s))
    ensures SlotOk(s.(pages := pages'), slot)
  {
    SamePages(s, s.(pages := pages'));
    if slot.Usable? {
      Frame(s, pages');
    } else if slot.Folded? && slot.bytes != [] {
      Frame(s, pages');
      FoldedFrame(s, pages');
    } else {
      FrameStale(s, pages');
    }
  }

  /** An image at the head of its first page stays there while others work on the heap. */
  lemma FoldedFrame(s: Snap, pages': map<Ptr, Page>)
    requires s.payload != [] && FoldedAt(s, s.payload[0]) && SameOn(s.pages, pages', Owned(s))
    ensures FoldedAt(s.(pages := pages'), s.payload[0])
  {
    Frame(s, pages');
    assert s.payload[0] in Owned(s);
  }

  lemma FrameStale(s: Snap, pages': map<Ptr, Page>)
    requires Releasable(s) && SameOn(s.pages, pages', Owned(s))
    ensures Releasable(s.(pages := pages'))
  {
    var s' := s.(pages := pages');
    forall i | 0 <= i < |s.payload| ensures IsPayload(pages', s.payload[i]) {
      assert s.payload[i] in Owned(s) && IsPayload(s.pages, s.payload[i]);
    }
    forall c | 0 <= c < |s.chain| ensures IndexPageOk(s', c) {
      assert s.chain[c] in Owned(s) && IndexPageOk(s, c) && UsedIn(s, c) == UsedIn(s', c);
    }
  }

  lemma SlotPages(s: Snap, slot: Slot)
    requires SlotOk(s, slot)
    ensures Releasable(s) && forall p | p in Owned(s) :: p in s.pages
  {
    OwnedLive(s);
  }

  lemma PoolChangesOne(pages: map<Ptr, Page>, ss: seq<Snap>, m: seq<Slot>, i: nat, s': Snap, slot': Slot)
    requires PoolOk(pages, ss, m) && i < |ss|
    requires ChangesOne(pages, s'.pages, ss[i], s') && SlotOk(s', slot')
    ensures PoolOk(s'.pages, Updated(ss, i, s'), m[i := slot'])
  {
    hide Releasable, SlotOk, Owned, AllOwned;
    var ss', pages' := Updated(ss, i, s'), s'.pages;
    forall k | 0 <= k < |ss| && k != i
      ensures SlotOk(ss'[k], m[k]) && Owned(ss'[k]) == Owned(ss[k])
      ensures Owned(ss[k]) !! Owned(s') && Owned(ss[k]) !! Owned(ss[i])
    {
      SamePages(ss'[k], ss[k]);
      SlotPages(ss[k], m[k]);
      assert SlotOk(ss[k], m[k]) && Owned(ss[k]) !! Owned(ss[i]);
      SlotFrame(ss[k], m[k], pages');
    }
    forall k, l | 0 <= k < l < |ss| ensures Owned(ss'[k]) !! Owned(ss'[l]) {
      assert Owned(ss[k]) !! Owned(ss[l]);
    }
    AllOwnedUpdated(ss, i, s');
  }

  lemma AllOwnedUpdated(ss: seq<Snap>, i: nat, s': Snap)
    requires i < |ss|
    requires forall k, l | 0 <= k < l < |ss| :: Owned(ss[k]) !! Owned(ss[l])
    ensures AllOwned(Updated(ss, i, s')) == (AllOwned(ss) - Owned(ss[i])) + Owned(s')
  {
    var ss' := Updated(ss, i, s');
    forall p ensures p in AllOwned(ss') <==> p in (AllOwned(ss) - Owned(ss[i])) + Owned(s') {
      if p in AllOwned(ss') {
        var k :| 0 <= k < |ss'| && p in Owned(ss'[k]);
        if k != i { assert p in Owned(ss[k]) && Owned(ss[k]) !! Owned(ss[i]); }
      }
      if p in AllOwned(ss) && p !in Owned(ss[i]) {
        var k :| 0 <= k < |ss| && p in Owned(ss[k]);
        assert p in Owned(ss'[k]);
      }
      if p in Owned(s') { assert p in Owned(ss'[i]); }
    }
  }

  /** An append changes one message, and what it holds. */
  lemma AppendedSlot(s: Snap, s': Snap, bytes: seq<MemByte>)
    requires Evolves(s, s') && WellFormed(s') && Contents(s') == bytes
    ensures ChangesOne(s.pages, s'.pages, s, s') && SlotOk(s', Usable(bytes, Surplus(s)))
  {
    EvolvesOwned(s, s');
  }

  ghost function Updated2(ss: seq<Snap>, i: nat, s': Snap, j: nat, e: Snap): (r: seq<Snap>)
    requires i < |ss| && j < |ss|
    ensures |r| == |ss|
  {
    seq(|ss|, k requires 0 <= k < |ss| =>
      if k == i then s' else if k == j then e else ss[k].(pages := s'.pages))
  }

  /** A transfer of everything slot j owns to slot i, whose own pages are released. */
  lemma PoolMoves(pages: map<Ptr, Page>, ss: seq<Snap>, m: seq<Slot>, i: nat, j: nat, s': Snap, slot': Slot, e: Snap, slotE: Slot)
    requires PoolOk(pages, ss, m) && i < |ss| && j < |ss| && i != j
    requires s'.payload == ss[j].payload && s'.chain == ss[j].chain && SlotOk(s', slot')
    requires e.pages == s'.pages && Owned(e) == {} && SlotOk(e, slotE)
    requires forall p | p in pages && p !in Owned(ss[i]) && p !in Owned(ss[j]) :: p in s'.pages && s'.pages[p] == pages[p]
    requires s'.pages.Keys == pages.Keys - Owned(ss[i])
    ensures PoolOk(s'.pages, Updated2(ss, i, s', j, e), m[i := slot'][j := slotE])
  {
    hide Releasable, SlotOk, Owned, AllOwned;
    var ss', pages' := Updated2(ss, i, s', j, e), s'.pages;
    SamePages(s', ss[j]);
    forall k | 0 <= k < |ss| && k != i && k != j
      ensures SlotOk(ss'[k], m[k]) && Owned(ss'[k]) == Owned(ss[k])
      ensures Owned(ss[k]) !! Owned(ss[j]) && Owned(ss[k]) !! Owned(ss[i])
    {
      SamePages(ss'[k], ss[k]);
      SlotPages(ss[k], m[k]);
      assert Owned(ss[k]) !! Owned(ss[i]) && Owned(ss[k]) !! Owned(ss[j]);
      SlotFrame(ss[k], m[k], pages');
    }
    MovedOwners(ss, i, j, s', e);
  }

  lemma MovedOwners(ss: seq<Snap>, i: nat, j: nat, s': Snap, e: Snap)
    requires i < |ss| && j < |ss| && i != j && Owned(e) == {}
    requires s'.payload == ss[j].payload && s'.chain == ss[j].chain
    requires forall k, l | 0 <= k < l < |ss| :: Owned(ss[k]) !! Owned(ss[l])
    ensures AllOwned(Updated2(ss, i, s', j, e)) == AllOwned(ss) - Owned(ss[i])
  {
    hide Owned;
    var ss' := Updated2(ss, i, s', j, e);
    SamePages(s', ss[j]);
    forall k | 0 <= k < |ss| && k != i && k != j ensures Owned(ss'[k]) == Owned(ss[k]) {
      SamePages(ss'[k], ss[k]);
    }
    forall p ensures p in AllOwned(ss') <==> p in AllOwned(ss) - Owned(ss[i]) {
      if p in AllOwned(ss') {
        var k :| 0 <= k < |ss'| && p in Owned(ss'[k]);
        var k' := if k == i then j else k;
        assert p in Owned(ss[k']) && k' != i && Owned(ss[k']) !! Owned(ss[i]);
      }
      if p in AllOwned(ss) - Owned(ss[i]) {
        var k :| 0 <= k < |ss| && p in Owned(ss[k]);
        assert p in Owned(ss'[if k == j then i else k]);
      }
    }
  }

  function Inserted<T>(s: seq<T>, i: nat, x: T): (r: seq<T>)
    requires i <= |s|
    ensures |r| == |s| + 1
    ensures forall k | 0 <= k < |r| :: r[k] == if k < i then s[k] else if k == i then x else s[k - 1]
  {
    s[..i] + [x] + s[i..]
  }

  /** A newcomer that owns nothing. */
  lemma PoolInsert(pages: map<Ptr, Page>, ss: seq<Snap>, m: seq<Slot>, i: nat, e: Snap, slot: Slot)
    requires PoolOk(pages, ss, m) && i <= |ss|
    requires e.pages == pages && Owned(e) == {} && SlotOk(e, slot)
    ensures PoolOk(pages, Inserted(ss, i, e), Inserted(m, i, slot))
  {
    hide Releasable, SlotOk, Owned;
    var ss' := Inserted(ss, i, e);
    forall k, l | 0 <= k < l < |ss'| ensures Owned(ss'[k]) !! Owned(ss'[l]) {
      if k != i && l != i {
        var k0, l0 := if k < i then k else k - 1, if l < i then l else l - 1;
        assert Owned(ss[k0]) !! Owned(ss[l0]);
      }
    }
    forall p ensures p in AllOwned(ss') <==> p in AllOwned(ss) {
      if p in AllOwned(ss') {
        var k :| 0 <= k < |ss'| && p in Owned(ss'[k]);
        assert p in Owned(ss[if k < i then k else k - 1]);
      }
      if p in AllOwned(ss) {
        var k :| 0 <= k < |ss| && p in Owned(ss[k]);
        assert p in Owned(ss'[if k < i then k else k + 1]);
      }
    }
  }

  lemma SamePages(s: Snap, t: Snap)
    requires s.payload == t.payload && s.chain == t.chain
    ensures Owned(s) == Owned(t)
  {}

  /** A snapshot that stands for an object or image that owns nothing. */
  function Nothing(pages: map<Ptr, Page>): Snap { Snap(EMPTY_IMAGE, pages, [], []) }

  lemma NothingOk(pages: map<Ptr, Page>)
    ensures SlotOk(Nothing(pages), NEW) && SlotOk(Nothing(pages), Gone) && SlotOk(Nothing(pages), Folded([], 0))
    ensures Owned(Nothing(pages)) == {}
  {}

  /** A well-formed message has as many pages as its bytes and the reserved prefix need. */
  lemma PayloadCount(s: Snap)
    requires WellFormed(s)
    ensures |s.payload| == PagesFor(|Contents(s)|)
    ensures s.img.totalSz == 0 <==> Contents(s) == []
  {}

  lemma SlotCount(s: Snap, slot: Slot)
    requires SlotOk(s, slot) && Alive(slot)
    ensures s.img.usedCnt == HeaderCount(slot) && Releasable(s)
    ensures CanRead(slot) ==> ReadsBack(s)
  {
    if slot.Usable? {
      PayloadCount(s);
      ReadsBackExactly(s);
    }
  }

  // ----- the real objects and pointers -----

  ghost function Snaps(mem: Memory, msgs: seq<InternalMsg>): (r: seq<Snap>)
    requires forall i | 0 <= i < |msgs| :: msgs[i].mem == mem
    reads mem, msgs
    ensures |r| == |msgs|
  {
    seq(|msgs|, i requires 0 <= i < |msgs| reads mem, msgs => msgs[i].S())
  }

  /** The images as they lie in the present heap. */
  ghost function Repaged(imgs: seq<Snap>, pages: map<Ptr, Page>): (r: seq<Snap>)
    ensures |r| == |imgs|
  {
    seq(|imgs|, k requires 0 <= k < |imgs| => imgs[k].(pages := pages))
  }

  /** Each pointer held is null for an empty message, and else the page its image is in. */
  ghost predicate ImagesHeld(held: seq<Ptr>, imgs: seq<Snap>, images: seq<Slot>) {
    && |held| == |imgs| == |images|
    && forall k | 0 <= k < |images| ::
         && (images[k].Folded? || images[k] == Gone)
         && (images[k].Folded? ==>
               if images[k].bytes == [] then held[k] == NULL
               else imgs[k].payload != [] && held[k] == imgs[k].payload[0])
  }

  ghost predicate PoolHolds(mem: Memory, msgs: seq<InternalMsg>, held: seq<Ptr>, imgs: seq<Snap>, p: Pool)
    reads mem, msgs
  {
    && (forall i | 0 <= i < |msgs| :: msgs[i].mem == mem)
    && (forall i, j | 0 <= i < j < |msgs| :: msgs[i] != msgs[j])
    && |msgs| == |p.msgs| && ImagesHeld(held, imgs, p.images)
    && PoolOk(mem.pages, Snaps(mem, msgs) + imgs, p.msgs + p.images)
  }

  /** A step on message i alone. */
  lemma MessageChanged(pages: map<Ptr, Page>, snaps: seq<Snap>, imgs: seq<Snap>, held: seq<Ptr>, p: Pool, i: nat, s': Snap, slot': Slot)
    requires PoolOk(pages, snaps + imgs, p.msgs + p.images) && |snaps| == |p.msgs| && i < |snaps|
    requires ImagesHeld(held, imgs, p.images)
    requires ChangesOne(pages, s'.pages, snaps[i], s') && SlotOk(s', slot')
    ensures PoolOk(s'.pages, Updated(snaps, i, s') + Repaged(imgs, s'.pages), p.msgs[i := slot'] + p.images)
    ensures ImagesHeld(held, Repaged(imgs, s'.pages), p.images)
  {
    hide ChangesOne, SlotOk, PoolOk;
    var ss, m := snaps + imgs, p.msgs + p.images;
    PoolSizes(pages, ss, m);
    PoolChangesOne(pages, ss, m, i, s', slot');
    assert Updated(ss, i, s') == Updated(snaps, i, s') + Repaged(imgs, s'.pages);
    assert m[i := slot'] == p.msgs[i := slot'] + p.images;
  }

  lemma PoolSizes(pages: map<Ptr, Page>, ss: seq<Snap>, m: seq<Slot>)
    requires PoolOk(pages, ss, m)
    ensures |ss| == |m|
    ensures forall i | 0 <= i < |ss| :: ss[i].pages == pages && SlotOk(ss[i], m[i])
    ensures forall i, j | 0 <= i < j < |ss| :: Owned(ss[i]) !! Owned(ss[j])
  {}

  method DoAppend(mem: Memory, msgs: seq<InternalMsg>, held: seq<Ptr>, ghost imgs: seq<Snap>, ghost p: Pool, i: nat, bytes: seq<MemByte>)
    returns (ghost imgs': seq<Snap>)
    requires PoolHolds(mem, msgs, held, imgs, p) && Legal(p, AppendBytes(i, bytes))
    modifies mem, msgs[i]
    ensures PoolHolds(mem, msgs, held, imgs', Apply(p, AppendBytes(i, bytes)))
  {
    hide WellFormed, Releasable, Contents, Evolves, Owned, PoolOk, ImagesHeld;
    ghost var snaps := Snaps(mem, msgs);
    PoolSizes(mem.pages, snaps + imgs, p.msgs + p.images);
    assert (snaps + imgs)[i] == snaps[i] && SlotOk(snaps[i], p.msgs[i]);
    msgs[i].Append(bytes);
    ghost var slot' := Usable(p.msgs[i].bytes + bytes, p.msgs[i].surplus);
    AppendedSlot(snaps[i], msgs[i].S(), slot'.bytes);
    MessageChanged(snaps[i].pages, snaps, imgs, held, p, i, msgs[i].S(), slot');
    imgs' := Repaged(imgs, mem.pages);
    assert Snaps(mem, msgs) == Updated(snaps, i, msgs[i].S());
  }

  method DoAppendByte(mem: Memory, msgs: seq<InternalMsg>, held: seq<Ptr>, ghost imgs: seq<Snap>, ghost p: Pool, i: nat, b: MemByte)
    returns (ghost imgs': seq<Snap>)
    requires PoolHolds(mem, msgs, held, imgs, p) && Legal(p, AppendByte(i, b))
    modifies mem, msgs[i]
    ensures PoolHolds(mem, msgs, held, imgs', Apply(p, AppendByte(i, b)))
  {
    hide WellFormed, Releasable, Contents, Evolves, Owned, PoolOk, ImagesHeld;
    ghost var snaps := Snaps(mem, msgs);
    PoolSizes(mem.pages, snaps + imgs, p.msgs + p.images);
    assert (snaps + imgs)[i] == snaps[i] && SlotOk(snaps[i], p.msgs[i]);
    msgs[i].AppendUint8(b);
    ghost var slot' := Usable(p.msgs[i].bytes + [b], p.msgs[i].surplus);
    AppendedSlot(snaps[i], msgs[i].S(), slot'.bytes);
    MessageChanged(snaps[i].pages, snaps, imgs, held, p, i, msgs[i].S(), slot');
    imgs' := Repaged(imgs, mem.pages);
    assert Snaps(mem, msgs) == Updated(snaps, i, msgs[i].S());
  }

  method DoAppendRead(mem: Memory, msgs: seq<InternalMsg>, held: seq<Ptr>, ghost imgs: seq<Snap>, ghost p: Pool, i: nat, j: nat, skip: nat, n: nat)
    returns (ghost imgs': seq<Snap>)
    requires PoolHolds(mem, msgs, held, imgs, p) && Legal(p, AppendRead(i, j, skip, n))
    modifies mem, msgs[i]
    ensures PoolHolds(mem, msgs, held, imgs', Apply(p, AppendRead(i, j, skip, n)))
  {
    hide WellFormed, Releasable, Contents, Evolves, Owned, PoolOk, ImagesHeld, ReadsBack, CursorAt, Remaining, ChangesOne, Walkable;
    ghost var snaps := Snaps(mem, msgs);
    PoolSizes(mem.pages, snaps + imgs, p.msgs + p.images);
    assert (snaps + imgs)[i] == snaps[i] && SlotOk(snaps[i], p.msgs[i]);
    assert (snaps + imgs)[j] == snaps[j] && SlotOk(snaps[j], p.msgs[j]);
    assert i != j ==> Owned(snaps[i]) !! Owned(snaps[j]);
    SlotCount(snaps[j], p.msgs[j]);
    var it := msgs[j].GetReadIter();
    var skipped := it.Skip(skip);
    ghost var rest := it.Left();
    msgs[i].AppendIter(it, n);
    ghost var slot' := Usable(p.msgs[i].bytes + rest[..Min(n, |rest|)], p.msgs[i].surplus);
    AppendedSlot(snaps[i], msgs[i].S(), slot'.bytes);
    MessageChanged(snaps[i].pages, snaps, imgs, held, p, i, msgs[i].S(), slot');
    imgs' := Repaged(imgs, mem.pages);
    assert Snaps(mem, msgs) == Updated(snaps, i, msgs[i].S());
  }

  method DoClear(mem: Memory, msgs: seq<InternalMsg>, held: seq<Ptr>, ghost imgs: seq<Snap>, ghost p: Pool, i: nat)
    returns (ghost imgs': seq<Snap>)
    requires PoolHolds(mem, msgs, held, imgs, p) && Legal(p, ClearMsg(i))
    modifies mem, msgs[i]
    ensures PoolHolds(mem, msgs, held, imgs', Apply(p, ClearMsg(i)))
  {
    hide WellFormed, Releasable, Contents, Evolves, Owned, PoolOk, ImagesHeld;
    ghost var snaps := Snaps(mem, msgs);
    PoolSizes(mem.pages, snaps + imgs, p.msgs + p.images);
    assert (snaps + imgs)[i] == snaps[i] && SlotOk(snaps[i], p.msgs[i]);
    SlotPages(snaps[i], p.msgs[i]);
    SlotCount(snaps[i], p.msgs[i]);
    msgs[i].Clear();
    ghost var slot' := Cleared(p.msgs[i]);
    NoPages(msgs[i].S());
    assert ChangesOne(snaps[i].pages, mem.pages, snaps[i], msgs[i].S());
    MessageChanged(snaps[i].pages, snaps, imgs, held, p, i, msgs[i].S(), slot');
    imgs' := Repaged(imgs, mem.pages);
    assert Snaps(mem, msgs) == Updated(snaps, i, msgs[i].S());
  }

  method DoWriteApp(mem: Memory, msgs: seq<InternalMsg>, held: seq<Ptr>, ghost imgs: seq<Snap>, ghost p: Pool, i: nat, offset: nat, data: seq<MemByte>)
    returns (ghost imgs': seq<Snap>)
    requires PoolHolds(mem, msgs, held, imgs, p) && Legal(p, WriteApp(i, offset, data))
    modifies mem, msgs[i]
    ensures PoolHolds(mem, msgs, held, imgs', Apply(p, WriteApp(i, offset, data)))
  {
    hide WellFormed, Releasable, Contents, Evolves, Owned, PoolOk, ImagesHeld, AppWritten;
    ghost var snaps := Snaps(mem, msgs);
    PoolSizes(mem.pages, snaps + imgs, p.msgs + p.images);
    assert (snaps + imgs)[i] == snaps[i] && SlotOk(snaps[i], p.msgs[i]);
    msgs[i].AppWriteData(data, offset);
    ghost var slot' := if p.msgs[i].bytes == [] then Stale(p.msgs[i].surplus + 1) else p.msgs[i];
    AppWriteSlot(snaps[i], msgs[i].S(), offset, data);
    assert p.msgs[i := p.msgs[i]] == p.msgs;
    MessageChanged(snaps[i].pages, snaps, imgs, held, p, i, msgs[i].S(), slot');
    imgs' := Repaged(imgs, mem.pages);
    assert Snaps(mem, msgs) == Updated(snaps, i, msgs[i].S());
  }

  method DoDestroy(mem: Memory, msgs: seq<InternalMsg>, held: seq<Ptr>, ghost imgs: seq<Snap>, ghost p: Pool, i: nat)
    returns (ghost imgs': seq<Snap>)
    requires PoolHolds(mem, msgs, held, imgs, p) && Legal(p, Destroy(i))
    modifies mem, msgs[i]
    ensures PoolHolds(mem, msgs, held, imgs', Apply(p, Destroy(i)))
  {
    hide WellFormed, Releasable, Contents, Evolves, Owned, PoolOk, ImagesHeld;
    ghost var snaps := Snaps(mem, msgs);
    PoolSizes(mem.pages, snaps + imgs, p.msgs + p.images);
    assert (snaps + imgs)[i] == snaps[i] && SlotOk(snaps[i], p.msgs[i]);
    SlotPages(snaps[i], p.msgs[i]);
    msgs[i].ReleaseAllPages();
    ghost var slot' := Gone;
    Destroyed(snaps[i], msgs[i].S());
    assert ChangesOne(snaps[i].pages, mem.pages, snaps[i], msgs[i].S());
    MessageChanged(snaps[i].pages, snaps, imgs, held, p, i, msgs[i].S(), slot');
    imgs' := Repaged(imgs, mem.pages);
    assert Snaps(mem, msgs) == Updated(snaps, i, msgs[i].S());
  }

  lemma NoPages(s: Snap)
    requires s.payload == [] && s.chain == []
    ensures Owned(s) == {}
  {}

  lemma AppWriteSlot(s: Snap, s': Snap, offset: nat, data: seq<MemByte>)
    requires WellFormed(s) && AppWritten(s, s', offset, data)
    ensures ChangesOne(s.pages, s'.pages, s, s')
    ensures SlotOk(s', if Contents(s) == [] then Stale(Surplus(s) + 1) else Usable(Contents(s), Surplus(s)))
  {
    PayloadCount(s);
  }

  lemma Destroyed(s: Snap, s': Snap)
    requires Releasable(s) && s'.img == s.img.(next := NULL, pageCnt := 0) && s'.payload == [] && s'.chain == []
    ensures Releasable(s') && Owned(s') == {}
  {}

  method DoMove(mem: Memory, msgs: seq<InternalMsg>, held: seq<Ptr>, ghost imgs: seq<Snap>, ghost p: Pool, i: nat, j: nat)
    returns (ghost imgs': seq<Snap>)
    requires PoolHolds(mem, msgs, held, imgs, p) && Legal(p, Move(i, j))
    modifies mem, msgs[i], msgs[j]
    ensures PoolHolds(mem, msgs, held, imgs', Apply(p, Move(i, j)))
  {
    hide WellFormed, Releasable, Contents, Evolves, Owned, PoolOk;
    ghost var snaps := Snaps(mem, msgs);
    ghost var ss, m := snaps + imgs, p.msgs + p.images;
    PoolSizes(mem.pages, ss, m);
    assert SlotOk(ss[i], m[i]) && SlotOk(ss[j], m[j]);
    SlotPages(ss[i], m[i]);
    assert i != j ==> Owned(ss[i]) !! Owned(ss[j]);
    msgs[i].MoveAssign(msgs[j]);
    if i == j {
      imgs' := imgs;
      assert Snaps(mem, msgs) == snaps;
    } else {
      imgs' := Repaged(imgs, mem.pages);
      FreshSlot(msgs[j].S());
      PoolMoves(snaps[i].pages, ss, m, i, j, msgs[i].S(), m[j], msgs[j].S(), NEW);
      assert Snaps(mem, msgs) + imgs' == Updated2(ss, i, msgs[i].S(), j, msgs[j].S());
      assert m[i := m[j]][j := NEW] == p.msgs[i := p.msgs[j]][j := NEW] + p.images;
    }
  }

  lemma FreshSlot(s: Snap)
    requires s.img == EMPTY_IMAGE && s.payload == [] && s.chain == []
    ensures SlotOk(s, NEW) && SlotOk(s, Gone) && SlotOk(s, Folded([], 0)) && Owned(s) == {}
  {}

  /** convertToPointer: the message's pages now belong to the pointer. */
  method DoFold(mem: Memory, msgs: seq<InternalMsg>, held: seq<Ptr>, ghost imgs: seq<Snap>, ghost p: Pool, i: nat)
    returns (held': seq<Ptr>, ghost imgs': seq<Snap>)
    requires PoolHolds(mem, msgs, held, imgs, p) && Legal(p, Fold(i))
    modifies mem, msgs[i]
    ensures PoolHolds(mem, msgs, held', imgs', Apply(p, Fold(i)))
  {
    hide WellFormed, Releasable, Contents, Evolves, Owned, PoolOk, FoldedAt, AppArea;
    ghost var snaps := Snaps(mem, msgs);
    ghost var ss, m := snaps + imgs, p.msgs + p.images;
    PoolSizes(mem.pages, ss, m);
    assert SlotOk(ss[i], m[i]) && ss[i] == snaps[i];
    PayloadCount(ss[i]);
    NothingOk(mem.pages);
    var q := msgs[i].ConvertToPointer();
    held' := held + [q];
    if p.msgs[i].bytes == [] {
      imgs' := imgs + [Nothing(mem.pages)];
      PoolInsert(mem.pages, ss, m, |ss|, Nothing(mem.pages), Folded([], 0));
      assert Snaps(mem, msgs) + imgs' == Inserted(ss, |ss|, Nothing(mem.pages));
      assert p.msgs + (p.images + [Folded([], 0)]) == Inserted(m, |m|, Folded([], 0));
    } else {
      ghost var folded, image := ss[i].(pages := mem.pages), Folded(p.msgs[i].bytes, p.msgs[i].surplus);
      imgs' := Repaged(imgs, mem.pages) + [folded];
      FoldedSlot(folded, ss[i], q, image);
      FreshSlot(msgs[i].S());
      ghost var n, e := |ss|, Nothing(snaps[i].pages);
      PoolInsert(snaps[i].pages, ss, m, n, e, Gone);
      ImageInFirstPage(folded, q);
      SamePages(folded, ss[i]);
      PoolMoves(snaps[i].pages, Inserted(ss, n, e), Inserted(m, n, Gone), n, i, folded, image, msgs[i].S(), NEW);
      assert Snaps(mem, msgs) + imgs' == Updated2(Inserted(ss, n, e), n, folded, i, msgs[i].S());
      assert p.msgs[i := NEW] + (p.images + [image]) == Inserted(m, n, Gone)[n := image][i := NEW];
    }
  }

  lemma ImageInFirstPage(s: Snap, p: Ptr)
    requires FoldedAt(s, p)
    ensures p in Owned(s) && Releasable(s) && s.payload != [] && p == s.payload[0]
  {
    assert s.payload[0] in s.payload;
  }

  lemma FoldedSlot(folded: Snap, s: Snap, q: Ptr, image: Slot)
    requires FoldedAt(folded, q) && folded == s.(pages := folded.pages) && image.Folded? && image.bytes != []
    requires Contents(folded) == image.bytes && Surplus(s) == image.surplus
    ensures SlotOk(folded, image) && folded.payload != [] && q == folded.payload[0]
  {}

  /** restoreFromPointer: the pages come back, to whichever message asks for them. */
  method DoRestore(mem: Memory, msgs: seq<InternalMsg>, held: seq<Ptr>, ghost imgs: seq<Snap>, ghost p: Pool, i: nat, k: nat)
    returns (ghost imgs': seq<Snap>)
    requires PoolHolds(mem, msgs, held, imgs, p) && Legal(p, Restore(i, k))
    modifies mem, msgs[i]
    ensures PoolHolds(mem, msgs, held, imgs', Apply(p, Restore(i, k)))
  {
    hide WellFormed, Releasable, Contents, Evolves, Owned, PoolOk, FoldedAt, AppArea;
    ghost var snaps := Snaps(mem, msgs);
    ghost var ss, m := snaps + imgs, p.msgs + p.images;
    ghost var c := |msgs| + k;
    PoolSizes(mem.pages, ss, m);
    assert SlotOk(ss[i], m[i]) && ss[i] == snaps[i] && SlotOk(ss[c], m[c]) && ss[c] == imgs[k] && m[c] == p.images[k];
    assert Owned(ss[i]) !! Owned(ss[c]);
    SlotPages(ss[i], m[i]);
    SlotCount(ss[i], m[i]);
    ImageSlot(ss[c], m[c]);
    msgs[i].RestoreFromPointer(held[k], imgs[k]);
    ghost var s', slot' := msgs[i].S(), Unfolded(m[i], m[c]);
    NothingOk(mem.pages);
    RestoredSlot(ss[c], m[c], m[i], s');
    if m[c].bytes == [] {
      NoPages(s');
      NoOwner(snaps[i].pages, ss, m, i, c, s', slot');
    } else {
      PoolMoves(snaps[i].pages, ss, m, i, c, s', slot', Nothing(mem.pages), Gone);
    }
    imgs' := Repaged(imgs, mem.pages)[k := Nothing(mem.pages)];
    assert Snaps(mem, msgs) + imgs' == Updated2(ss, i, s', c, Nothing(mem.pages));
    assert m[i := slot'][c := Gone] == p.msgs[i := slot'] + p.images[k := Gone];
  }

  lemma ImageSlot(s: Snap, slot: Slot)
    requires SlotOk(s, slot) && slot.Folded?
    ensures if slot.bytes == [] then Owned(s) == {} else s.payload != [] && FoldedAt(s, s.payload[0]) && s.payload[0] != NULL
  {}

  lemma RestoredSlot(s: Snap, image: Slot, slot: Slot, s': Snap)
    requires SlotOk(s, image) && image.Folded?
    requires if image.bytes == [] then WellFormed(s') && Contents(s') == [] && Surplus(s') == HeaderCount(slot)
             else WellFormed(s') && s'.img == s.img && s'.payload == s.payload && Contents(s') == Contents(s)
    ensures SlotOk(s', Unfolded(slot, image))
  {}

  /** Restoring a null pointer: slot c owned nothing, slot i owns nothing now. */
  lemma NoOwner(pages: map<Ptr, Page>, ss: seq<Snap>, m: seq<Slot>, i: nat, c: nat, s': Snap, slot': Slot)
    requires PoolOk(pages, ss, m) && i < |ss| && c < |ss| && i != c && Owned(ss[c]) == {}
    requires SlotOk(s', slot') && Owned(s') == {} && s'.pages == pages - Owned(ss[i])
    ensures PoolOk(s'.pages, Updated2(ss, i, s', c, Nothing(s'.pages)), m[i := slot'][c := Gone])
  {
    hide Releasable, SlotOk, Owned, AllOwned;
    var e := Nothing(s'.pages);
    NothingOk(s'.pages);
    PoolChangesOne(pages, ss, m, i, s', slot');
    var ss1, m1 := Updated(ss, i, s'), m[i := slot'];
    SamePages(ss1[c], ss[c]);
    PoolChangesOne(s'.pages, ss1, m1, c, e, Gone);
    assert Updated(ss1, c, e) == Updated2(ss, i, s', c, e);
  }

  /** A new message, empty or taking over another's contents. */
  method DoCreate(mem: Memory, msgs: seq<InternalMsg>, held: seq<Ptr>, ghost imgs: seq<Snap>, ghost p: Pool)
    returns (msgs': seq<InternalMsg>)
    requires PoolHolds(mem, msgs, held, imgs, p)
    ensures |msgs'| == |msgs| + 1 && msgs'[..|msgs|] == msgs && fresh(msgs'[|msgs|])
    ensures PoolHolds(mem, msgs', held, imgs, Apply(p, Create))
  {
    hide WellFormed, Releasable, Contents, Owned, PoolOk;
    ghost var snaps := Snaps(mem, msgs);
    ghost var ss, m, n := snaps + imgs, p.msgs + p.images, |msgs|;
    PoolSizes(mem.pages, ss, m);
    var msg := new InternalMsg(mem);
    msgs' := msgs + [msg];
    FreshSlot(msg.S());
    PoolInsert(mem.pages, ss, m, n, msg.S(), NEW);
    assert Snaps(mem, msgs') + imgs == Inserted(ss, n, msg.S());
    assert (p.msgs + [NEW]) + p.images == Inserted(m, n, NEW);
  }

  method DoCreateFrom(mem: Memory, msgs: seq<InternalMsg>, held: seq<Ptr>, ghost imgs: seq<Snap>, ghost p: Pool, j: nat)
    returns (msgs': seq<InternalMsg>)
    requires PoolHolds(mem, msgs, held, imgs, p) && Legal(p, CreateFrom(j))
    modifies msgs[j]
    ensures |msgs'| == |msgs| + 1 && msgs'[..|msgs|] == msgs && fresh(msgs'[|msgs|])
    ensures PoolHolds(mem, msgs', held, imgs, Apply(p, CreateFrom(j)))
  {
    hide WellFormed, Releasable, Contents, Owned, PoolOk;
    ghost var snaps := Snaps(mem, msgs);
    ghost var ss, m, n, e := snaps + imgs, p.msgs + p.images, |msgs|, Nothing(mem.pages);
    PoolSizes(mem.pages, ss, m);
    assert SlotOk(ss[j], m[j]) && ss[j] == snaps[j];
    NothingOk(mem.pages);
    var msg := new InternalMsg.MoveFrom(msgs[j]);
    msgs' := msgs + [msg];
    FreshSlot(msgs[j].S());
    PoolInsert(mem.pages, ss, m, n, e, NEW);
    PoolMoves(mem.pages, Inserted(ss, n, e), Inserted(m, n, NEW), n, j, msg.S(), m[j], msgs[j].S(), NEW);
    assert Snaps(mem, msgs') + imgs == Updated2(Inserted(ss, n, e), n, msg.S(), j, msgs[j].S());
    assert (p.msgs[j := NEW] + [p.msgs[j]]) + p.images == Inserted(m, n, NEW)[n := m[j]][j := NEW];
  }

  /** One operation on the real objects does what it does to plain byte sequences. */
  method Step(mem: Memory, msgs: seq<InternalMsg>, held: seq<Ptr>, ghost imgs: seq<Snap>, ghost p: Pool, op: Op)
    returns (msgs': seq<InternalMsg>, held': seq<Ptr>, ghost imgs': seq<Snap>)
    requires PoolHolds(mem, msgs, held, imgs, p) && Legal(p, op)
    modifies mem, msgs
    ensures msgs <= msgs' && forall i | |msgs| <= i < |msgs'| :: fresh(msgs'[i])
    ensures PoolHolds(mem, msgs', held', imgs', Apply(p, op))
  {
    hide PoolHolds, Apply;
    assert |msgs| == |p.msgs| by { HoldsSizes(mem, msgs, held, imgs, p); }
    msgs', held', imgs' := msgs, held, imgs;
    match op
    case AppendBytes(i, bytes) => imgs' := DoAppend(mem, msgs, held, imgs, p, i, bytes);
    case AppendByte(i, b) => imgs' := DoAppendByte(mem, msgs, held, imgs, p, i, b);
    case AppendRead(i, j, skip, n) => imgs' := DoAppendRead(mem, msgs, held, imgs, p, i, j, skip, n);
    case Move(i, j) => imgs' := DoMove(mem, msgs, held, imgs, p, i, j);
    case Fold(i) => held', imgs' := DoFold(mem, msgs, held, imgs, p, i);
    case Restore(i, k) => imgs' := DoRestore(mem, msgs, held, imgs, p, i, k);
    case WriteApp(i, offset, data) => imgs' := DoWriteApp(mem, msgs, held, imgs, p, i, offset, data);
    case ClearMsg(i) => imgs' := DoClear(mem, msgs, held, imgs, p, i);
    case Create => msgs' := DoCreate(mem, msgs, held, imgs, p);
    case CreateFrom(j) => msgs' := DoCreateFrom(mem, msgs, held, imgs, p, j);
    case Destroy(i) => imgs' := DoDestroy(mem, msgs, held, imgs, p, i);
  }

  lemma HoldsSizes(mem: Memory, msgs: seq<InternalMsg>, held: seq<Ptr>, imgs: seq<Snap>, p: Pool)
    requires PoolHolds(mem, msgs, held, imgs, p)
    ensures |msgs| == |p.msgs| && |held| == |imgs| == |p.images|
  {}

  ghost predicate LegalRun(p: Pool, ops: seq<Op>)
    decreases |ops|
  {
    ops != [] ==> Legal(p, ops[0]) && LegalRun(Apply(p, ops[0]), ops[1..])
  }

  ghost function ApplyAll(p: Pool, ops: seq<Op>): Pool
    requires LegalRun(p, ops)
    decreases |ops|
  {
    if ops == [] then p else ApplyAll(Apply(p, ops[0]), ops[1..])
  }

  /** Any run over any number of messages and folded images keeps every one of them equal to
      what plain byte sequences would hold, with no page shared and none lost. */
  method Run(mem: Memory, msgs: seq<InternalMsg>, held: seq<Ptr>, ghost imgs: seq<Snap>, ghost p: Pool, ops: seq<Op>)
    returns (msgs': seq<InternalMsg>, held': seq<Ptr>, ghost imgs': seq<Snap>)
    requires PoolHolds(mem, msgs, held, imgs, p) && LegalRun(p, ops)
    modifies mem, msgs
    ensures PoolHolds(mem, msgs', held', imgs', ApplyAll(p, ops))
  {
    hide PoolHolds, Legal, Apply;
    msgs', held', imgs' := msgs, held, imgs;
    ghost var now := p;
    var k := 0;
    assert ops[0..] == ops;
    while k < |ops|
      invariant 0 <= k <= |ops|
      invariant LegalRun(now, ops[k..]) && ApplyAll(now, ops[k..]) == ApplyAll(p, ops)
      invariant forall x | 0 <= x < |msgs'| :: msgs'[x] in msgs || fresh(msgs'[x])
      invariant PoolHolds(mem, msgs', held', imgs', now)
    {
      assert ops[k..][0] == ops[k] && ops[k..][1..] == ops[k + 1..];
      msgs', held', imgs' := Step(mem, msgs', held', imgs', now, ops[k]);
      now := Apply(now, ops[k]);
      k := k + 1;
    }
  }

  // ----- conservation of pages -----

  function SumPages(ss: seq<Snap>): nat {
    if ss == [] then 0
    else SumPages(ss[..|ss| - 1]) + ss[|ss| - 1].img.pageCnt + IndexPagesFor(ss[|ss| - 1].img.pageCnt)
  }

  /** The heap holds exactly the payload pages of all messages and the index pages these need. */
  lemma {:induction false} PoolPageCount(pages: map<Ptr, Page>, ss: seq<Snap>, m: seq<Slot>)
    requires PoolOk(pages, ss, m)
    ensures |pages| == SumPages(ss)
  {
    hide Releasable, WellFormed, Contents, Owned;
    forall i | 0 <= i < |ss| ensures Releasable(ss[i]) { SlotPages(ss[i], m[i]); }
    OwnedCount(ss);
    assert |pages| == |pages.Keys|;
  }

  lemma {:induction false} OwnedCount(ss: seq<Snap>)
    requires forall i | 0 <= i < |ss| :: Releasable(ss[i])
    requires forall i, j | 0 <= i < j < |ss| :: Owned(ss[i]) !! Owned(ss[j])
    ensures |AllOwned(ss)| == SumPages(ss)
  {
    hide Releasable, Owned;
    if ss == [] {
      assert AllOwned(ss) == {};
    } else {
      var init, last := ss[..|ss| - 1], ss[|ss| - 1];
      OwnedCount(init);
      PageCount(last);
      AllOwnedLast(ss);
    }
  }

  lemma AllOwnedLast(ss: seq<Snap>)
    requires ss != []
    requires forall i, j | 0 <= i < j < |ss| :: Owned(ss[i]) !! Owned(ss[j])
    ensures AllOwned(ss) == AllOwned(ss[..|ss| - 1]) + Owned(ss[|ss| - 1])
    ensures AllOwned(ss[..|ss| - 1]) !! Owned(ss[|ss| - 1])
  {
    hide Owned;
    var init, last := ss[..|ss| - 1], ss[|ss| - 1];
    forall p | p in AllOwned(init) ensures p in AllOwned(ss) && p !in Owned(last) {
      var i :| 0 <= i < |init| && p in Owned(init[i]);
      assert p in Owned(ss[i]) && Owned(ss[i]) !! Owned(ss[|ss| - 1]);
    }
    forall p | p in AllOwned(ss) ensures p in AllOwned(init) + Owned(last) {
      var i :| 0 <= i < |ss| && p in Owned(ss[i]);
      if i < |init| { assert p in Owned(init[i]); }
    }
    forall p | p in Owned(last) ensures p in AllOwned(ss) { assert p in Owned(ss[|ss| - 1]); }
  }

  /** An empty heap without messages is a good start. */
  method Start() returns (mem: Memory)
    ensures fresh(mem) && PoolHolds(mem, [], [], [], Pool([], []))
  {
    mem := new Memory();
    assert AllOwned(Snaps(mem, []) + []) == {};
  }

  /** Destroying every message that is still there leaves exactly the pages of the images
      still held: nothing else is left on the heap, and by the precondition of free nothing
      was returned twice. */
  method DestroyAll(mem: Memory, msgs: seq<InternalMsg>, alive: seq<bool>, held: seq<Ptr>, ghost imgs: seq<Snap>, ghost p: Pool)
    returns (ghost imgs': seq<Snap>)
    requires PoolHolds(mem, msgs, held, imgs, p)
    requires |alive| == |msgs| && forall i | 0 <= i < |msgs| :: if alive[i] then Alive(p.msgs[i]) else p.msgs[i] == Gone
    modifies mem, msgs
    ensures PoolOk(mem.pages, imgs', p.images) && |mem.pages| == SumPages(imgs')
    ensures (forall k | 0 <= k < |p.images| :: p.images[k] == Gone) ==> mem.pages == map[]
  {
    hide PoolHolds, PoolOk, Apply;
    HoldsSizes(mem, msgs, held, imgs, p);
    ghost var now := p;
    imgs' := imgs;
    var i := 0;
    while i < |msgs|
      invariant 0 <= i <= |msgs| == |now.msgs| && now.images == p.images
      invariant PoolHolds(mem, msgs, held, imgs', now)
      invariant forall j | 0 <= j < i :: now.msgs[j] == Gone
      invariant forall j | i <= j < |msgs| :: if alive[j] then Alive(now.msgs[j]) else now.msgs[j] == Gone
    {
      HoldsSizes(mem, msgs, held, imgs', now);
      if alive[i] {
        imgs' := DoDestroy(mem, msgs, held, imgs', now, i);
        DestroyApplied(now, i);
        now := Apply(now, Destroy(i));
      }
      i := i + 1;
    }
    OnlyImagesLeft(mem, msgs, held, imgs', now);
  }

  lemma DestroyApplied(p: Pool, i: nat)
    requires Legal(p, Destroy(i))
    ensures Apply(p, Destroy(i)) == p.(msgs := p.msgs[i := Gone])
  {}

  lemma OnlyImagesLeft(mem: Memory, msgs: seq<InternalMsg>, held: seq<Ptr>, imgs: seq<Snap>, p: Pool)
    requires PoolHolds(mem, msgs, held, imgs, p) && forall j | 0 <= j < |p.msgs| :: p.msgs[j] == Gone
    ensures PoolOk(mem.pages, imgs, p.images) && |mem.pages| == SumPages(imgs)
    ensures (forall k | 0 <= k < |p.images| :: p.images[k] == Gone) ==> mem.pages == map[]
  {
    hide Releasable, Owned, PoolOk, SlotOk;
    var ss, m, n := Snaps(mem, msgs) + imgs, p.msgs + p.images, |p.msgs|;
    PoolTail(mem.pages, ss, m, n);
    assert ss[n..] == imgs && m[n..] == p.images;
    PoolPageCount(mem.pages, imgs, p.images);
    if forall k | 0 <= k < |p.images| :: p.images[k] == Gone { NothingOwned(mem.pages, imgs, p.images); }
  }

  /** Slots that are gone can be left out of the account. */
  lemma PoolTail(pages: map<Ptr, Page>, ss: seq<Snap>, m: seq<Slot>, n: nat)
    requires PoolOk(pages, ss, m) && n <= |m| && forall j | 0 <= j < n :: m[j] == Gone
    ensures PoolOk(pages, ss[n..], m[n..])
  {
    hide Releasable, Owned;
    var tail := ss[n..];
    forall i, j | 0 <= i < j < |tail| ensures Owned(tail[i]) !! Owned(tail[j]) {
      assert Owned(ss[n + i]) !! Owned(ss[n + j]);
    }
    forall q ensures q in AllOwned(ss) <==> q in AllOwned(tail) {
      if q in AllOwned(ss) {
        var i :| 0 <= i < |ss| && q in Owned(ss[i]);
        assert SlotOk(ss[i], m[i]);
        assert q in Owned(tail[i - n]);
      }
      if q in AllOwned(tail) {
        var i :| 0 <= i < |tail| && q in Owned(tail[i]);
        assert q in Owned(ss[n + i]);
      }
    }
  }

  lemma NothingOwned(pages: map<Ptr, Page>, ss: seq<Snap>, m: seq<Slot>)
    requires PoolOk(pages, ss, m) && forall k | 0 <= k < |m| :: m[k] == Gone
    ensures pages == map[]
  {
    PoolTail(pages, ss, m, |m|);
    assert ss[|m|..] == [] && AllOwned([]) == {};
    assert pages.Keys == {};
  }

  // ----- reading a message to its end -----

  datatype ReadOp = ReadUpTo(n: nat) | DirectUpTo(n: nat) | OneChar | OneStep

  /** One read of whichever kind; reads past the end deliver what is there. */
  method Take(it: ReadIter, op: ReadOp) returns (out: seq<MemByte>)
    requires it.Valid()
    modifies it
    ensures it.Valid() && out + it.Left() == old(it.Left())
    ensures op.ReadUpTo? ==> |out| == Min(op.n, |old(it.Left())|)
    ensures op.DirectUpTo? ==> |out| == Min(op.n, old(it.sizeRemainingInBlock))
    ensures op.OneChar? || op.OneStep? ==> |out| == Min(1, |old(it.Left())|)
  {
    hide WellFormed, CursorAt, Remaining, Contents, Settled, Owned;
    ghost var left := it.Left();
    out := [];
    match op
    case ReadUpTo(n) =>
      out := it.Read(n);
    case DirectUpTo(n) =>
      var sz := Min(n, it.DirectlyAvailableSize());
      var p, o := it.DirectRead(sz);
      if sz > 0 { out := Fetch(it.msg.mem.pages, InPage(p, o), 0, sz); }
    case OneChar =>
      if it.totalSz != 0 { var b := it.ReadChar(); out := [b]; }
    case OneStep =>
      if it.totalSz != 0 {
        var b := it.Deref();
        it.Increment();
        out := [b];
      }
  }

  /** Whatever mix of reads is used, a fresh iterator delivers the message from its first
      byte on, without gap or repetition; and once nothing is left, all of it. */
  method Drain(msg: InternalMsg, ops: seq<ReadOp>) returns (out: seq<MemByte>, it: ReadIter)
    requires msg.Valid() && ReadsBack(msg.S())
    ensures it.msg == msg && it.Valid() && out + it.Left() == msg.Bytes()
    ensures it.sizeRemainingInBlock == 0 ==> out == msg.Bytes()
  {
    hide WellFormed, CursorAt, Remaining, Contents;
    it := msg.GetReadIter();
    out := [];
    var k := 0;
    while k < |ops|
      invariant 0 <= k <= |ops| && fresh(it)
      invariant it.msg == msg && it.Valid() && out + it.Left() == msg.Bytes()
    {
      ghost var left := it.Left();
      var more := Take(it, ops[k]);
      assert (out + more) + it.Left() == out + left;
      out := out + more;
      k := k + 1;
    }
  }

  /** A message that is cleared and filled again holds the new bytes; it can be read through
      if and only if it had no header entries or the new bytes fit in the local slots. */
  method ReuseAfterClear(msg: InternalMsg, bytes: seq<MemByte>)
    requires Releasable(msg.S())
    modifies msg, msg.mem
    ensures msg.Valid() && msg.Bytes() == bytes
    ensures ReadsBack(msg.S()) <==> old(msg.usedCnt) == 0 || 144 + |bytes| <= 4 * 4096
  {
    hide WellFormed, Releasable, Contents, Evolves;
    msg.Clear();
    ghost var cleared := msg.S();
    msg.Append(bytes);
    KeepsSurplus(cleared, msg.S());
    PayloadCount(msg.S());
    ReadsBackExactly(msg.S()) by { assert Struct(msg.S()) by { StructOf(msg.S()); } }
  }

  lemma KeepsSurplus(s: Snap, s': Snap)
    requires Evolves(s, s')
    ensures Surplus(s') == Surplus(s)
  {}

  lemma StructOf(s: Snap)
    requires WellFormed(s)
    ensures Struct(s)
  {}
}
