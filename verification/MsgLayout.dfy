/** The layout of a paged message: what its pointers must look like in memory, and
    which byte stream they denote (include/internal_msg.h:71-215). */
module MsgLayout {
  import opened PageMemory

  const LOCAL_SLOTS: nat := 4
  const APP_RESERVED: nat := 64
  /** Bytes of an InternalMsg object: ten words. */
  const IMAGE_SIZE: nat := 80
  /** The prefix of the first page: object image, then application area. */
  const RESERVED: nat := 144

  /** The fields of an InternalMsg, in memory order. */
  datatype Image = Image(next: Ptr, usedCnt: nat, firstPages: seq<Ptr>,
                         pageCnt: nat, lip: Ptr, currentPage: Ptr, totalSz: nat)

  /** A message together with the heap it lives in. `payload` and `chain` name its
      payload pages and its index pages in order. */
  datatype Snap = Snap(img: Image, pages: map<Ptr, Page>, payload: seq<Ptr>, chain: seq<Ptr>)

  const EMPTY_IMAGE := Image(NULL, 0, [NULL, NULL, NULL, NULL], 0, NULL, NULL, 0)

  function Min(a: nat, b: nat): nat { if a < b then a else b }

  ghost predicate Distinct(s: seq<Ptr>) {
    forall i, j | 0 <= i < j < |s| :: s[i] != s[j]
  }

  function Elems(s: seq<Ptr>): set<Ptr> {
    set p | p in s
  }

  function Owned(s: Snap): set<Ptr> {
    Elems(s.payload) + Elems(s.chain)
  }

  /** How many entries the c-th index page of the chain holds. */
  function UsedIn(s: Snap, c: nat): int {
    if c + 1 < |s.chain| then MAX_ADDRESSED
    else |s.payload| - LOCAL_SLOTS - c * MAX_ADDRESSED
  }

  ghost predicate IndexPageOk(s: Snap, c: nat)
    requires c < |s.chain|
  {
    && s.chain[c] != NULL && s.chain[c] in s.pages
    && s.pages[s.chain[c]].Index?
    && var ip := s.pages[s.chain[c]];
    && |ip.entries| == MAX_ADDRESSED
    && ip.usedCnt == UsedIn(s, c)
    && 1 <= ip.usedCnt <= MAX_ADDRESSED
    && ip.next == (if c + 1 < |s.chain| then s.chain[c + 1] else NULL)
    && LOCAL_SLOTS + c * MAX_ADDRESSED + ip.usedCnt <= |s.payload|
    && ip.entries[..ip.usedCnt]
       == s.payload[LOCAL_SLOTS + c * MAX_ADDRESSED..LOCAL_SLOTS + c * MAX_ADDRESSED + ip.usedCnt]
  }

  /** Ownership: every page is live, of the right kind, and reached once. */
  ghost predicate PagesOk(s: Snap) {
    && Distinct(s.payload) && Distinct(s.chain)
    && (forall i, j | 0 <= i < |s.payload| && 0 <= j < |s.chain| :: s.payload[i] != s.chain[j])
    && (forall i | 0 <= i < |s.payload| :: s.payload[i] != NULL && IsPayload(s.pages, s.payload[i]))
    && (forall c {:trigger IndexPageOk(s, c)} | 0 <= c < |s.chain| :: IndexPageOk(s, c))
  }

  /** The part of the object's fields that releasing its pages relies on. */
  ghost predicate LinksOk(s: Snap) {
    && |s.img.firstPages| == LOCAL_SLOTS
    && s.img.pageCnt == |s.payload|
    && (forall i | 0 <= i < LOCAL_SLOTS && i < |s.payload| :: s.img.firstPages[i] == s.payload[i])
    && (s.img.firstPages[0] == NULL <==> s.img.usedCnt == 0)
    && s.img.next == (if s.chain == [] then NULL else s.chain[0])
    && (s.chain == [] ==> |s.payload| <= LOCAL_SLOTS)
    && (s.chain != [] ==>
          LOCAL_SLOTS + (|s.chain| - 1) * MAX_ADDRESSED < |s.payload| <= LOCAL_SLOTS + |s.chain| * MAX_ADDRESSED)
  }

  /** The object's own fields agree with the page lists. */
  ghost predicate HeaderOk(s: Snap) {
    && LinksOk(s)
    && s.img.usedCnt >= Min(s.img.pageCnt, LOCAL_SLOTS)
    && s.img.lip == (if s.chain == [] then NULL else s.chain[|s.chain| - 1])
  }

  /** By how much the entry count of the object's header exceeds the local slots in use.
      It is zero unless the message was cleared while it held pages. */
  function Surplus(s: Snap): nat {
    if s.img.usedCnt < Min(|s.payload|, LOCAL_SLOTS) then 0 else s.img.usedCnt - Min(|s.payload|, LOCAL_SLOTS)
  }

  /** Enough for the pages to be released. */
  ghost predicate Releasable(s: Snap) {
    PagesOk(s) && LinksOk(s)
  }

  ghost predicate Struct(s: Snap) {
    PagesOk(s) && HeaderOk(s)
  }

  /** The stored size fits the pages exactly, and currentPage is the page being filled. */
  ghost predicate SizeOk(s: Snap) {
    && s.img.totalSz <= |s.payload| * PAGE_SIZE < s.img.totalSz + PAGE_SIZE
    && s.img.currentPage == (if s.img.totalSz == |s.payload| * PAGE_SIZE then NULL else s.payload[|s.payload| - 1])
    && (s.img.totalSz == 0 || s.img.totalSz > RESERVED)
  }

  ghost predicate WellFormed(s: Snap) {
    Struct(s) && SizeOk(s)
  }

  // ----- the byte stream -----

  function Flat(pages: map<Ptr, Page>, ps: seq<Ptr>): seq<MemByte> {
    if ps == [] then [] else Flat(pages, ps[..|ps| - 1]) + Cells(pages, ps[|ps| - 1])
  }

  ghost predicate AllPayload(pages: map<Ptr, Page>, ps: seq<Ptr>) {
    forall i | 0 <= i < |ps| :: IsPayload(pages, ps[i])
  }

  lemma {:induction false} FlatLength(pages: map<Ptr, Page>, ps: seq<Ptr>)
    requires AllPayload(pages, ps)
    ensures |Flat(pages, ps)| == |ps| * PAGE_SIZE
  {
    if ps != [] {
      FlatLength(pages, ps[..|ps| - 1]);
    }
  }

  /** Page c of the list supplies bytes c*P up to (c+1)*P of the stream. */
  lemma {:induction false} FlatAt(pages: map<Ptr, Page>, ps: seq<Ptr>, c: nat)
    requires AllPayload(pages, ps) && c < |ps|
    ensures |Flat(pages, ps)| == |ps| * PAGE_SIZE
    ensures Flat(pages, ps)[c * PAGE_SIZE..(c + 1) * PAGE_SIZE] == Cells(pages, ps[c])
  {
    FlatLength(pages, ps);
    var init := ps[..|ps| - 1];
    FlatLength(pages, init);
    if c < |init| {
      FlatAt(pages, init, c);
      assert Flat(pages, ps)[..|init| * PAGE_SIZE] == Flat(pages, init);
      assert Flat(pages, ps)[c * PAGE_SIZE..(c + 1) * PAGE_SIZE]
          == Flat(pages, ps)[..|init| * PAGE_SIZE][c * PAGE_SIZE..(c + 1) * PAGE_SIZE];
    }
  }

  lemma {:induction false} FlatFrame(pages: map<Ptr, Page>, pages': map<Ptr, Page>, ps: seq<Ptr>)
    requires forall i | 0 <= i < |ps| :: Cells(pages, ps[i]) == Cells(pages', ps[i])
    ensures Flat(pages, ps) == Flat(pages', ps)
  {
    if ps != [] {
      FlatFrame(pages, pages', ps[..|ps| - 1]);
    }
  }

  /** Sound enough to speak about the stored bytes; also holds between two steps of an append. */
  ghost predicate Measured(s: Snap) {
    Struct(s) && s.img.totalSz <= |s.payload| * PAGE_SIZE
  }

  /** Everything stored so far, reserved prefix included. */
  ghost function Stream(s: Snap): (r: seq<MemByte>)
    requires Measured(s)
    ensures |r| == s.img.totalSz
  {
    FlatLength(s.pages, s.payload);
    Flat(s.pages, s.payload)[..s.img.totalSz]
  }

  lemma Window<T>(f: seq<T>, a: nat, len: nat, off: nat, n: nat, total: nat)
    requires off + n <= len && a + off + n <= total <= |f| && a + len <= |f|
    ensures f[a..a + len][off..off + n] == f[..total][a + off..a + off + n]
  {
    var w := f[a..a + len][off..off + n];
    assert forall k | 0 <= k < n :: w[k] == f[a + off + k];
    assert w == f[a + off..a + off + n];
    assert f[..total][a + off..a + off + n] == f[a + off..a + off + n];
  }

  lemma StructPayload(s: Snap)
    requires Struct(s)
    ensures AllPayload(s.pages, s.payload)
  {}

  /** A byte run that lies inside one stored page is read from that page alone. */
  lemma PageSlice(s: Snap, pg: nat, off: nat, n: nat)
    requires Measured(s) && pg < |s.payload|
    requires off + n <= PAGE_SIZE && pg * PAGE_SIZE + off + n <= s.img.totalSz
    ensures IsPayload(s.pages, s.payload[pg])
    ensures Cells(s.pages, s.payload[pg])[off..off + n]
         == Stream(s)[pg * PAGE_SIZE + off..pg * PAGE_SIZE + off + n]
  {
    hide PagesOk, HeaderOk;
    StructPayload(s);
    FlatAt(s.pages, s.payload, pg);
    Window(Flat(s.pages, s.payload), pg * PAGE_SIZE, PAGE_SIZE, off, n, s.img.totalSz);
  }

  /** The message as its user sees it. */
  ghost function Contents(s: Snap): (r: seq<MemByte>)
    requires WellFormed(s)
  {
    if s.img.totalSz == 0 then [] else Stream(s)[RESERVED..]
  }

  /** The application's own area in the first page. */
  function AppArea(s: Snap): seq<MemByte> {
    if s.payload == [] || |Cells(s.pages, s.payload[0])| < RESERVED then []
    else Cells(s.pages, s.payload[0])[IMAGE_SIZE..RESERVED]
  }

  // ----- frames -----

  /** Nothing a message owns differs between two heaps. */
  ghost predicate SameOn(pages: map<Ptr, Page>, pages': map<Ptr, Page>, ps: set<Ptr>) {
    forall p | p in ps :: p in pages && p in pages' && pages[p] == pages'[p]
  }

  /** A heap change outside a message leaves the message and its bytes alone. */
  lemma Frame(s: Snap, pages': map<Ptr, Page>)
    requires WellFormed(s) && SameOn(s.pages, pages', Owned(s))
    ensures WellFormed(s.(pages := pages'))
    ensures Stream(s.(pages := pages')) == Stream(s)
    ensures Contents(s.(pages := pages')) == Contents(s)
    ensures AppArea(s.(pages := pages')) == AppArea(s)
  {
    FrameStruct(s, pages');
    forall i | 0 <= i < |s.payload| ensures Cells(s.pages, s.payload[i]) == Cells(pages', s.payload[i]) {
      assert s.payload[i] in Owned(s);
    }
    FlatFrame(s.pages, pages', s.payload);
  }

  lemma FrameStruct(s: Snap, pages': map<Ptr, Page>)
    requires Struct(s) && SameOn(s.pages, pages', Owned(s))
    ensures Struct(s.(pages := pages'))
  {
    var s' := s.(pages := pages');
    forall i | 0 <= i < |s.payload| ensures IsPayload(pages', s.payload[i]) {
      assert s.payload[i] in Owned(s) && IsPayload(s.pages, s.payload[i]);
    }
    forall c | 0 <= c < |s.chain| ensures IndexPageOk(s', c) {
      assert s.chain[c] in Owned(s) && IndexPageOk(s, c) && UsedIn(s, c) == UsedIn(s', c);
    }
  }

  /** Releasing pages of somebody else's. */
  lemma FrameReleased(s: Snap, gone: set<Ptr>)
    requires WellFormed(s) && Owned(s) !! gone
    ensures var s' := s.(pages := s.pages - gone);
            && WellFormed(s') && Stream(s') == Stream(s)
            && Contents(s') == Contents(s) && AppArea(s') == AppArea(s)
  {
    OwnedLive(s);
    Frame(s, s.pages - gone);
  }

  lemma OwnedLive(s: Snap)
    requires PagesOk(s)
    ensures forall p | p in Owned(s) :: p in s.pages && p != NULL
  {
    forall p | p in Owned(s) ensures p in s.pages && p != NULL {
      if p in s.payload {
        var i :| 0 <= i < |s.payload| && s.payload[i] == p;
        assert IsPayload(s.pages, s.payload[i]);
      } else {
        var c :| 0 <= c < |s.chain| && s.chain[c] == p;
        assert IndexPageOk(s, c);
      }
    }
  }

  lemma {:induction false} DistinctSize(ps: seq<Ptr>)
    requires Distinct(ps)
    ensures |Elems(ps)| == |ps|
  {
    if ps != [] {
      var init := ps[..|ps| - 1];
      DistinctSize(init);
      assert Elems(ps) == Elems(init) + {ps[|ps| - 1]};
    }
  }

  /** ceil(max(pageCnt - K, 0) / N): the index pages a message of that many payload pages needs. */
  function IndexPagesFor(pageCnt: nat): nat {
    if pageCnt <= LOCAL_SLOTS then 0 else (pageCnt - LOCAL_SLOTS + MAX_ADDRESSED - 1) / MAX_ADDRESSED
  }

  /** A well-formed message owns exactly pageCnt payload pages and the index pages they need. */
  lemma PageCount(s: Snap)
    requires Releasable(s)
    ensures |Owned(s)| == s.img.pageCnt + IndexPagesFor(s.img.pageCnt)
    ensures |s.chain| == IndexPagesFor(s.img.pageCnt)
    ensures |s.chain| == if s.img.pageCnt <= 4 then 0 else (s.img.pageCnt - 4 + 509) / 510
  {
    DistinctSize(s.payload);
    DistinctSize(s.chain);
    assert Elems(s.payload) !! Elems(s.chain);
  }

  // ----- growth -----

  /** A page is open for writing and not yet full. */
  ghost predicate Fillable(s: Snap) {
    && Struct(s)
    && s.payload != []
    && (|s.payload| - 1) * PAGE_SIZE <= s.img.totalSz < |s.payload| * PAGE_SIZE
    && s.img.currentPage == s.payload[|s.payload| - 1]
  }

  /** s' is s with more bytes stored: no stored byte moved or changed, nothing outside
      the message was touched, and exactly the pages it gained were taken from the heap. */
  ghost predicate Evolves(s: Snap, s': Snap) {
    && Measured(s) && Measured(s')
    && s.payload <= s'.payload
    && s.chain <= s'.chain
    && Stream(s) <= Stream(s') && Surplus(s') == Surplus(s)
    && (forall p | p in s.pages && p !in Owned(s) :: p in s'.pages && s'.pages[p] == s.pages[p])
    && (forall p | p in Owned(s') && p !in Owned(s) :: p !in s.pages)
    && s'.pages.Keys == s.pages.Keys + Owned(s')
  }

  lemma EvolvesOwned(s: Snap, s': Snap)
    requires Evolves(s, s')
    ensures Owned(s) <= Owned(s')
  {
    forall p | p in Owned(s) ensures p in Owned(s') {
      if p in s.payload {
        var i :| 0 <= i < |s.payload| && s.payload[i] == p;
        assert s'.payload[i] == p;
      } else {
        var i :| 0 <= i < |s.chain| && s.chain[i] == p;
        assert s'.chain[i] == p;
      }
    }
  }

  /** What growth means for the stored bytes, without the ownership part. */
  lemma EvolvesBytes(s: Snap, s': Snap)
    requires Evolves(s, s')
    ensures Measured(s) && Measured(s') && s.payload <= s'.payload && s.chain <= s'.chain
    ensures Stream(s) <= Stream(s') && s.img.totalSz <= s'.img.totalSz && Surplus(s') == Surplus(s)
  {}

  lemma PayloadDistinct(s: Snap, i: nat, j: nat)
    requires Struct(s) && i < |s.payload| && j < |s.payload|
    ensures s.payload[i] == s.payload[j] ==> i == j
  {}

  lemma EvolvesRefl(s: Snap)
    requires Measured(s)
    ensures Evolves(s, s)
  {
    OwnedLive(s);
  }

  lemma EvolvesTrans(a: Snap, b: Snap, c: Snap)
    requires Evolves(a, b) && Evolves(b, c)
    ensures Evolves(a, c)
  {
    EvolvesOwned(a, b);
    EvolvesOwned(b, c);
  }

  /** The four ways implAddPage extends the structure, seen as one change: `page` becomes the
      last payload page, entered in the slot the code picks. */
  ghost predicate PageAdded(s: Snap, s': Snap, page: Ptr, ip: Ptr) {
    && page != NULL && page !in s.pages && IsPayload(s'.pages, page)
    && s'.payload == s.payload + [page]
    && s'.img.totalSz == s.img.totalSz
    && s'.img.currentPage == page
    && s'.img.pageCnt == s.img.pageCnt + 1
    && var n := |s.payload|;
       if n < LOCAL_SLOTS then
         && s'.chain == s.chain
         && s'.pages == s.pages[page := s'.pages[page]]
         && |s.img.firstPages| == LOCAL_SLOTS
         && s'.img == s.img.(firstPages := s.img.firstPages[n := page], usedCnt := s.img.usedCnt + 1,
                             pageCnt := n + 1, currentPage := page)
       else if s.chain == [] then
         && ip != NULL && ip != page && ip !in s.pages
         && s'.chain == [ip]
         && s'.pages == s.pages[page := s'.pages[page]][ip := Index(NULL, 1, seq(MAX_ADDRESSED, _ => NULL)[0 := page])]
         && s'.img == s.img.(next := ip, lip := ip, pageCnt := n + 1, currentPage := page)
       else if n == LOCAL_SLOTS + |s.chain| * MAX_ADDRESSED then
         && ip != NULL && ip != page && ip !in s.pages
         && s'.chain == s.chain + [ip]
         && s.img.lip in s.pages && s.pages[s.img.lip].Index?
         && s'.pages == s.pages[page := s'.pages[page]][ip := Index(NULL, 1, seq(MAX_ADDRESSED, _ => NULL)[0 := page])]
                               [s.img.lip := s.pages[s.img.lip].(next := ip)]
         && s'.img == s.img.(lip := ip, pageCnt := n + 1, currentPage := page)
       else
         && s'.chain == s.chain
         && s.img.lip in s.pages && s.pages[s.img.lip].Index?
         && var last := s.pages[s.img.lip];
         && last.usedCnt < |last.entries|
         && s'.pages == s.pages[page := s'.pages[page]]
                               [s.img.lip := Index(last.next, last.usedCnt + 1, last.entries[last.usedCnt := page])]
         && s'.img == s.img.(pageCnt := n + 1, currentPage := page)
  }

  lemma OldIndexPages(s: Snap, s': Snap, page: Ptr, ip: Ptr, c: nat)
    requires Struct(s) && PageAdded(s, s', page, ip)
    requires c < |s.chain| && c + 1 < |s'.chain|
    ensures IndexPageOk(s', c)
  {
    assert IndexPageOk(s, c);
    if c + 1 == |s.chain| {
      assert s.img.lip == s.chain[c];
    } else {
      assert s.chain[c] != s.chain[|s.chain| - 1];
    }
  }

  lemma LastIndexPage(s: Snap, s': Snap, page: Ptr, ip: Ptr)
    requires Struct(s) && PageAdded(s, s', page, ip)
    requires s'.chain != []
    ensures IndexPageOk(s', |s'.chain| - 1)
  {
    var c := |s'.chain| - 1;
    if |s.chain| == |s'.chain| {
      assert IndexPageOk(s, c);
      var last := s.pages[s.img.lip];
      var a := LOCAL_SLOTS + c * MAX_ADDRESSED;
      assert last.entries[last.usedCnt := page][..last.usedCnt + 1] == last.entries[..last.usedCnt] + [page];
      assert s'.payload[a..a + last.usedCnt + 1] == s.payload[a..a + last.usedCnt] + [page];
    }
  }

  lemma PageAddedStruct(s: Snap, s': Snap, page: Ptr, ip: Ptr)
    requires Struct(s) && PageAdded(s, s', page, ip)
    ensures Struct(s')
  {
    OwnedLive(s);
    forall i | 0 <= i < |s.payload| ensures s.payload[i] in Owned(s) && s.payload[i] in s.pages {}
    forall c | 0 <= c < |s.chain| ensures s.chain[c] in s.pages { assert IndexPageOk(s, c); }
    forall i | 0 <= i < |s'.payload| ensures IsPayload(s'.pages, s'.payload[i]) {
      if i < |s.payload| { assert IsPayload(s.pages, s.payload[i]); }
    }
    forall c | 0 <= c < |s'.chain| ensures IndexPageOk(s', c) {
      if c + 1 < |s'.chain| { OldIndexPages(s, s', page, ip, c); } else { LastIndexPage(s, s', page, ip); }
    }
  }

  lemma PageAddedStream(s: Snap, s': Snap, page: Ptr, ip: Ptr)
    requires Struct(s) && PageAdded(s, s', page, ip) && s.img.totalSz <= |s.payload| * PAGE_SIZE
    ensures Measured(s') && Stream(s') == Stream(s)
  {
    PageAddedStruct(s, s', page, ip);
    OwnedLive(s);
    var old' := s'.payload[..|s'.payload| - 1];
    assert old' == s.payload;
    forall i | 0 <= i < |s.payload| ensures Cells(s.pages, s.payload[i]) == Cells(s'.pages, s.payload[i]) {
      assert s.payload[i] in Owned(s) && s.payload[i] in s.pages;
      assert IsPayload(s.pages, s.payload[i]);
    }
    FlatFrame(s.pages, s'.pages, s.payload);
    FlatLength(s.pages, s.payload);
    assert Flat(s'.pages, s'.payload) == Flat(s.pages, s.payload) + Cells(s'.pages, page);
  }

  lemma PageAddedOwnership(s: Snap, s': Snap, page: Ptr, ip: Ptr)
    requires Struct(s) && PageAdded(s, s', page, ip)
    ensures s.payload <= s'.payload && s.chain <= s'.chain
    ensures Owned(s') == Owned(s) + {page} + (if s'.chain == s.chain then {} else {ip})
    ensures forall p | p in s.pages && p !in Owned(s) :: p in s'.pages && s'.pages[p] == s.pages[p]
    ensures s'.pages.Keys == s.pages.Keys + Owned(s')
  {
    OwnedLive(s);
    assert Elems(s'.payload) == Elems(s.payload) + {page};
    if s'.chain != s.chain {
      assert s'.chain == s.chain + [ip];
      assert Elems(s'.chain) == Elems(s.chain) + {ip};
    }
    if s.chain != [] { assert s.img.lip == s.chain[|s.chain| - 1] && s.img.lip in Owned(s); }
  }

  /** A new page leaves every stored byte where it was. */
  lemma PageAddedEvolves(s: Snap, s': Snap, page: Ptr, ip: Ptr)
    requires Struct(s) && PageAdded(s, s', page, ip) && s.img.totalSz <= |s.payload| * PAGE_SIZE
    ensures Evolves(s, s') && Stream(s') == Stream(s)
  {
    hide Struct, Owned, Flat;
    PageAddedStream(s, s', page, ip);
    PageAddedOwnership(s, s', page, ip);
    PageAddedSurplus(s, s', page, ip);
  }

  lemma PageAddedSurplus(s: Snap, s': Snap, page: Ptr, ip: Ptr)
    requires Struct(s) && PageAdded(s, s', page, ip) && s.img.totalSz <= |s.payload| * PAGE_SIZE
    ensures Measured(s) && Surplus(s') == Surplus(s)
    ensures page !in s.pages && (s'.chain != s.chain ==> ip !in s.pages)
  {
    hide Flat;
  }

  /** memcpy of `data` at the write position of the open page. */
  ghost predicate Filled(s: Snap, s': Snap, data: seq<MemByte>) {
    && Fillable(s)
    && s.img.totalSz + |data| <= |s.payload| * PAGE_SIZE
    && var off := s.img.totalSz - (|s.payload| - 1) * PAGE_SIZE;
    && s'.payload == s.payload && s'.chain == s.chain
    && s'.img == s.img.(totalSz := s.img.totalSz + |data|,
                        currentPage := if s.img.totalSz + |data| == |s.payload| * PAGE_SIZE then NULL else s.img.currentPage)
    && IsPayload(s.pages, s.img.currentPage)
    && s'.pages == s.pages[s.img.currentPage := Payload(Overwrite(s.pages[s.img.currentPage].cells, off, data))]
  }

  lemma FilledStruct(s: Snap, s': Snap, data: seq<MemByte>)
    requires Filled(s, s', data)
    ensures Struct(s')
  {
    var last := s.payload[|s.payload| - 1];
    forall i | 0 <= i < |s.payload| ensures IsPayload(s'.pages, s'.payload[i]) { assert IsPayload(s.pages, s.payload[i]); }
    forall c | 0 <= c < |s.chain| ensures IndexPageOk(s', c) {
      assert IndexPageOk(s, c);
      assert s.chain[c] != last;
      assert UsedIn(s', c) == UsedIn(s, c);
    }
  }

  /** Rewriting the last page of a list leaves the bytes of the others. */
  lemma FlatLastPage(pages: map<Ptr, Page>, ps: seq<Ptr>, page: Page)
    requires Distinct(ps) && ps != []
    ensures Flat(pages[ps[|ps| - 1] := page], ps[..|ps| - 1]) == Flat(pages, ps[..|ps| - 1])
  {
    var init := ps[..|ps| - 1];
    var pages' := pages[ps[|ps| - 1] := page];
    forall i | 0 <= i < |init| ensures Cells(pages, init[i]) == Cells(pages', init[i]) {
      assert ps[i] != ps[|ps| - 1];
    }
    FlatFrame(pages, pages', init);
  }

  lemma OverwriteTake(cells: seq<MemByte>, off: nat, data: seq<MemByte>)
    requires off + |data| <= |cells|
    ensures Overwrite(cells, off, data)[..off + |data|] == cells[..off] + data
  {}

  lemma OverwrittenTail(front: seq<MemByte>, cells: seq<MemByte>, off: nat, data: seq<MemByte>)
    requires off + |data| <= |cells|
    ensures (front + Overwrite(cells, off, data))[..|front| + off + |data|] == (front + cells)[..|front| + off] + data
  {
    hide Overwrite;
    OverwriteTake(cells, off, data);
    TakeOfSum(front, Overwrite(cells, off, data), off + |data|);
    TakeOfSum(front, cells, off);
  }

  lemma TakeOfSum(a: seq<MemByte>, b: seq<MemByte>, m: nat)
    requires m <= |b|
    ensures (a + b)[..|a| + m] == a + b[..m]
  {}

  /** Overwriting the last page of a list at byte n of the stream appends there. */
  lemma FlatFilled(pages: map<Ptr, Page>, pages': map<Ptr, Page>, ps: seq<Ptr>, n: nat, data: seq<MemByte>)
    requires AllPayload(pages, ps) && Distinct(ps) && ps != []
    requires (|ps| - 1) * PAGE_SIZE <= n && n + |data| <= |ps| * PAGE_SIZE
    requires var last := ps[|ps| - 1];
             pages' == pages[last := Payload(Overwrite(pages[last].cells, n - (|ps| - 1) * PAGE_SIZE, data))]
    ensures |Flat(pages, ps)| == |Flat(pages', ps)| == |ps| * PAGE_SIZE
    ensures Flat(pages', ps)[..n + |data|] == Flat(pages, ps)[..n] + data
  {
    hide Overwrite;
    var last := ps[|ps| - 1];
    FlatLastPage(pages, ps, pages'[last]);
    FlatLength(pages, ps[..|ps| - 1]);
    var front := Flat(pages, ps[..|ps| - 1]);
    var cells := pages[last].cells;
    var off := n - |front|;
    OverwrittenTail(front, cells, off, data);
  }

  lemma FilledStream(s: Snap, s': Snap, data: seq<MemByte>)
    requires Filled(s, s', data)
    ensures Measured(s') && Stream(s') == Stream(s) + data
  {
    FilledStruct(s, s', data);
    FlatFilled(s.pages, s'.pages, s.payload, s.img.totalSz, data);
  }

  lemma FilledEvolves(s: Snap, s': Snap, data: seq<MemByte>)
    requires Filled(s, s', data)
    ensures Evolves(s, s') && Stream(s') == Stream(s) + data
  {
    FilledStream(s, s', data);
    OwnedLive(s);
    assert s.payload[|s.payload| - 1] in Owned(s);
  }

  /** After implAddPage on a message without an open page, the new page is open at its start. */
  lemma PageAddedOpens(s: Snap, s': Snap, page: Ptr, ip: Ptr)
    requires Struct(s) && PageAdded(s, s', page, ip) && s.img.totalSz == |s.payload| * PAGE_SIZE
    ensures Fillable(s') && Evolves(s, s') && Stream(s') == Stream(s)
  {
    PageAddedStruct(s, s', page, ip);
    PageAddedEvolves(s, s', page, ip);
  }

  /** Reserving the prefix of the first page. */
  lemma ReservedOpens(s0: Snap, s: Snap)
    requires Fillable(s) && s.img.totalSz == 0 && Evolves(s0, s) && s0.img.totalSz == 0
    ensures var s' := s.(img := s.img.(totalSz := RESERVED));
            Fillable(s') && Evolves(s0, s')
  {
    var s' := s.(img := s.img.(totalSz := RESERVED));
    assert s.chain == [];
    assert Stream(s0) == [];
  }

  lemma FilledValid(s: Snap, s': Snap, data: seq<MemByte>)
    requires Filled(s, s', data) && s.img.totalSz >= RESERVED && data != []
    ensures WellFormed(s') && Contents(s') == Stream(s)[RESERVED..] + data
    ensures Evolves(s, s') && Stream(s') == Stream(s) + data
  {
    hide PagesOk, HeaderOk, Evolves;
    FilledStruct(s, s', data);
    FilledEvolves(s, s', data);
    assert Contents(s') == Stream(s')[RESERVED..];
  }

  /** s' is the message s with `bytes` appended. */
  ghost predicate Appended(s: Snap, s': Snap, bytes: seq<MemByte>) {
    WellFormed(s) && WellFormed(s') && Evolves(s, s') && Contents(s') == Contents(s) + bytes
  }

  /** The write offset the code computes from the size alone. */
  lemma WriteOffset(s: Snap)
    requires Fillable(s)
    ensures s.img.totalSz % PAGE_SIZE == s.img.totalSz - (|s.payload| - 1) * PAGE_SIZE
  {}

  /** The last index page, as implAddPage finds it. */
  lemma LipShape(s: Snap)
    requires Struct(s) && |s.payload| >= LOCAL_SLOTS
    ensures s.img.lip == NULL <==> s.chain == []
    ensures s.chain == [] ==> |s.payload| == LOCAL_SLOTS && s.img.next == NULL
    ensures s.chain != [] ==>
              && s.img.next != NULL && s.img.lip in s.chain
              && s.img.lip in s.pages && s.pages[s.img.lip].Index?
              && |s.pages[s.img.lip].entries| == MAX_ADDRESSED && s.pages[s.img.lip].usedCnt <= MAX_ADDRESSED
              && (s.pages[s.img.lip].usedCnt == MAX_ADDRESSED <==> |s.payload| == LOCAL_SLOTS + |s.chain| * MAX_ADDRESSED)
  {
    if s.chain != [] {
      assert IndexPageOk(s, |s.chain| - 1) && IndexPageOk(s, 0);
    }
  }
}
