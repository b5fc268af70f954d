/** The read position of an iterator over a paged message, as a value
    (include/internal_msg.h:222-291). */
module MsgCursor {
  import opened PageMemory
  import opened MsgLayout
  import opened MsgImage

  /** Where `ip` points: at the header inside the message object, or at an index page. */
  datatype HeaderRef = FirstHeader | IndexPageAt(p: Ptr)

  datatype Cursor = Cursor(ip: HeaderRef, page: Ptr, off: nat, total: nat, block: nat, idx: nat)

  /** The cursor reads payload page `pg`; if it has left the object header, it does so
      through the ci-th index page. */
  ghost predicate Located(s: Snap, c: Cursor, pg: nat, ci: nat) {
    match c.ip
    case FirstHeader => pg == c.idx && c.idx < LOCAL_SLOTS
    case IndexPageAt(p) =>
      && ci < |s.chain| && s.chain[ci] == p
      && c.idx < MAX_ADDRESSED && pg == LOCAL_SLOTS + ci * MAX_ADDRESSED + c.idx
  }

  /** A header that counts too many entries can only be followed within the local slots. */
  predicate Walkable(s: Snap, upTo: nat) {
    Surplus(s) == 0 || upTo <= LOCAL_SLOTS * PAGE_SIZE
  }

  ghost predicate CursorAt(s: Snap, c: Cursor, pg: nat, ci: nat) {
    if c.total == 0 then c.block == 0
    else
      && pg < |s.payload| && c.page == s.payload[pg]
      && c.off < PAGE_SIZE
      && c.block == Min(c.total, PAGE_SIZE - c.off)
      && pg * PAGE_SIZE + c.off + c.total <= s.img.totalSz
      && Walkable(s, pg * PAGE_SIZE + c.off + c.total)
      && Located(s, c, pg, ci)
  }

  /** The bytes the cursor still has to deliver. */
  ghost function Remaining(s: Snap, c: Cursor, pg: nat, ci: nat): (r: seq<MemByte>)
    requires Measured(s) && CursorAt(s, c, pg, ci)
    ensures |r| == c.total
  {
    if c.total == 0 then []
    else Stream(s)[pg * PAGE_SIZE + c.off..pg * PAGE_SIZE + c.off + c.total]
  }

  /** Growth of the message under a live iterator is invisible to it, although the
      iterator looks the entry counts up live. */
  lemma CursorStable(s: Snap, s': Snap, c: Cursor, pg: nat, ci: nat)
    requires Evolves(s, s') && CursorAt(s, c, pg, ci)
    ensures CursorAt(s', c, pg, ci) && Remaining(s', c, pg, ci) == Remaining(s, c, pg, ci)
  {}

  // ----- what the iterator finds when it asks for the next page -----

  /** ip->usedCnt */
  function UsedCntOf(s: Snap, ip: HeaderRef): nat
    requires ip.IndexPageAt? ==> ip.p in s.pages && s.pages[ip.p].Index?
  {
    if ip.FirstHeader? then s.img.usedCnt else s.pages[ip.p].usedCnt
  }

  /** ip->next() */
  function NextOf(s: Snap, ip: HeaderRef): Ptr
    requires ip.IndexPageAt? ==> ip.p in s.pages && s.pages[ip.p].Index?
  {
    if ip.FirstHeader? then s.img.next else s.pages[ip.p].next
  }

  /** ip->pages() */
  function EntriesOf(s: Snap, ip: HeaderRef): seq<Ptr>
    requires ip.IndexPageAt? ==> ip.p in s.pages && s.pages[ip.p].Index?
  {
    if ip.FirstHeader? then s.img.firstPages else s.pages[ip.p].entries
  }

  lemma IndexEntry(s: Snap, ci: nat, j: nat)
    requires Struct(s) && ci < |s.chain| && j < MAX_ADDRESSED
    requires LOCAL_SLOTS + ci * MAX_ADDRESSED + j < |s.payload|
    ensures s.chain[ci] in s.pages && s.pages[s.chain[ci]].Index?
    ensures j < s.pages[s.chain[ci]].usedCnt <= |s.pages[s.chain[ci]].entries|
    ensures s.pages[s.chain[ci]].entries[j] == s.payload[LOCAL_SLOTS + ci * MAX_ADDRESSED + j]
  {
    assert IndexPageOk(s, ci);
    var ip := s.pages[s.chain[ci]];
    assert ip.entries[..ip.usedCnt][j] == s.payload[LOCAL_SLOTS + ci * MAX_ADDRESSED + j];
  }

  lemma NextFromHeader(s: Snap, c: Cursor)
    requires Struct(s) && c.ip.FirstHeader? && c.idx < LOCAL_SLOTS && c.idx + 1 < |s.payload|
    requires Surplus(s) == 0 || c.idx + 1 < LOCAL_SLOTS
    ensures c.idx + 1 < s.img.usedCnt ==>
              c.idx + 1 < LOCAL_SLOTS && s.img.firstPages[c.idx + 1] == s.payload[c.idx + 1]
    ensures c.idx + 1 >= s.img.usedCnt ==>
              && c.idx + 1 == LOCAL_SLOTS && s.chain != [] && s.img.next == s.chain[0]
              && s.img.next in s.pages && s.pages[s.img.next].Index?
              && |s.pages[s.img.next].entries| > 0 && s.pages[s.img.next].entries[0] == s.payload[c.idx + 1]
  {
    if c.idx + 1 >= s.img.usedCnt { IndexEntry(s, 0, 0); }
  }

  lemma NextFromIndexPage(s: Snap, c: Cursor, ci: nat)
    requires Struct(s) && c.ip.IndexPageAt? && ci < |s.chain| && s.chain[ci] == c.ip.p
    requires c.idx < MAX_ADDRESSED && LOCAL_SLOTS + ci * MAX_ADDRESSED + c.idx + 1 < |s.payload|
    ensures c.ip.p in s.pages && s.pages[c.ip.p].Index?
    ensures var ip := s.pages[c.ip.p];
            var pg' := LOCAL_SLOTS + ci * MAX_ADDRESSED + c.idx + 1;
            && (c.idx + 1 < ip.usedCnt ==>
                  c.idx + 1 < MAX_ADDRESSED && c.idx + 1 < |ip.entries| && ip.entries[c.idx + 1] == s.payload[pg'])
            && (c.idx + 1 >= ip.usedCnt ==>
                  && c.idx + 1 == MAX_ADDRESSED && ci + 1 < |s.chain| && ip.next == s.chain[ci + 1]
                  && ip.next in s.pages && s.pages[ip.next].Index?
                  && |s.pages[ip.next].entries| > 0 && s.pages[ip.next].entries[0] == s.payload[pg'])
  {
    assert IndexPageOk(s, ci);
    if c.idx + 1 < s.pages[c.ip.p].usedCnt {
      IndexEntry(s, ci, c.idx + 1);
    } else {
      assert ci + 1 < |s.chain|;
      IndexEntry(s, ci + 1, 0);
    }
  }

  /** When a page is exhausted and data remains, the live test against usedCnt sends the
      iterator to exactly the following payload page: to the next entry of the same header
      when the test fails, and to entry 0 of the next index page when it succeeds. */
  lemma NextPageFound(s: Snap, c: Cursor, pg: nat, ci: nat)
    requires Struct(s) && Located(s, c, pg, ci) && pg + 1 < |s.payload|
    requires Surplus(s) == 0 || pg + 1 < LOCAL_SLOTS
    ensures c.ip.IndexPageAt? ==> c.ip.p in s.pages && s.pages[c.ip.p].Index?
    ensures c.idx + 1 < UsedCntOf(s, c.ip) ==>
              && c.idx + 1 < |EntriesOf(s, c.ip)| && EntriesOf(s, c.ip)[c.idx + 1] == s.payload[pg + 1]
              && Located(s, c.(idx := c.idx + 1), pg + 1, ci)
    ensures c.idx + 1 >= UsedCntOf(s, c.ip) ==>
              var q := NextOf(s, c.ip);
              var ci' := if c.ip.FirstHeader? then 0 else ci + 1;
              && q in s.pages && s.pages[q].Index?
              && |s.pages[q].entries| > 0 && s.pages[q].entries[0] == s.payload[pg + 1]
              && Located(s, c.(ip := IndexPageAt(q), idx := 0), pg + 1, ci')
  {
    if c.ip.FirstHeader? {
      NextFromHeader(s, c);
    } else {
      NextFromIndexPage(s, c, ci);
    }
  }

  lemma SubWindow<T>(f: seq<T>, a: nat, len: nat, n: nat)
    requires n <= len && a + len <= |f|
    ensures f[a..a + len][..n] == f[a..a + n]
  {}

  lemma PayloadUnique(s: Snap, pg: nat)
    requires Struct(s) && pg < |s.payload|
    ensures forall q | 0 <= q < |s.payload| && s.payload[q] == s.payload[pg] :: q == pg
    ensures s.payload[pg] in Owned(s)
  {}

  /** The block under the cursor is one run of one page, and it is the next part of the message. */
  lemma CursorRun(s: Snap, c: Cursor, pg: nat, ci: nat, n: nat)
    requires Measured(s) && CursorAt(s, c, pg, ci) && 0 < n <= c.block
    ensures c.page in Owned(s) && Settled(s, InPage(c.page, c.off), n)
    ensures Fetch(s.pages, InPage(c.page, c.off), 0, n) == Remaining(s, c, pg, ci)[..n]
  {
    hide PagesOk, HeaderOk;
    PageSlice(s, pg, c.off, n);
    SubWindow(Stream(s), pg * PAGE_SIZE + c.off, c.total, n);
    PayloadUnique(s, pg);
    forall q | 0 <= q < |s.payload| && s.payload[q] == c.page ensures q == pg {}
  }

  /** Consuming part of a block, or the end of the data. */
  lemma StaysOnPage(s: Snap, c: Cursor, pg: nat, ci: nat, sz: nat)
    requires WellFormed(s) && CursorAt(s, c, pg, ci) && sz <= c.block
    requires c.total == sz || sz < c.block
    ensures var c' := c.(total := c.total - sz, block := c.block - sz, off := c.off + sz);
            CursorAt(s, c', pg, ci) && Remaining(s, c', pg, ci) == Remaining(s, c, pg, ci)[sz..]
  {}

  /** Consuming a whole block when data remains. */
  lemma MovesToNextPage(s: Snap, c: Cursor, c': Cursor, pg: nat, ci: nat, ci': nat)
    requires Measured(s) && CursorAt(s, c, pg, ci) && c.block < c.total
    requires pg + 1 < |s.payload| && c'.page == s.payload[pg + 1] && Located(s, c', pg + 1, ci')
    requires c'.off == 0 && c'.total == c.total - c.block && c'.block == Min(c'.total, PAGE_SIZE)
    ensures CursorAt(s, c', pg + 1, ci') && Remaining(s, c', pg + 1, ci') == Remaining(s, c, pg, ci)[c.block..]
  {}

  /** Every pointer the page change follows is good. */
  ghost predicate Steppable(s: Snap, ip: HeaderRef, idx: nat) {
    && (ip.IndexPageAt? ==> ip.p in s.pages && s.pages[ip.p].Index?)
    && if idx + 1 >= UsedCntOf(s, ip) then
         NextOf(s, ip) in s.pages && s.pages[NextOf(s, ip)].Index? && |s.pages[NextOf(s, ip)].entries| > 0
       else
         idx + 1 < |EntriesOf(s, ip)|
  }

  /** Where the page change leads. */
  ghost function NextSlot(s: Snap, ip: HeaderRef, idx: nat): (HeaderRef, nat, Ptr)
    requires Steppable(s, ip, idx)
  {
    if idx + 1 >= UsedCntOf(s, ip) then
      (IndexPageAt(NextOf(s, ip)), 0, s.pages[NextOf(s, ip)].entries[0])
    else
      (ip, idx + 1, EntriesOf(s, ip)[idx + 1])
  }

  function ChainAfter(c: Cursor, ip: HeaderRef, ci: nat): nat {
    if ip == c.ip then ci else if c.ip.FirstHeader? then 0 else ci + 1
  }

  /** A page change mid-message is safe and lands on the following payload page. */
  lemma StepSafe(s: Snap, c: Cursor, pg: nat, ci: nat)
    requires WellFormed(s) && CursorAt(s, c, pg, ci) && 0 < c.block < c.total
    ensures Steppable(s, c.ip, c.idx)
    ensures var (ip, idx, page) := NextSlot(s, c.ip, c.idx);
            var c' := Cursor(ip, page, 0, c.total - c.block, Min(c.total - c.block, PAGE_SIZE), idx);
            CursorAt(s, c', pg + 1, ChainAfter(c, ip, ci))
            && Remaining(s, c', pg + 1, ChainAfter(c, ip, ci)) == Remaining(s, c, pg, ci)[c.block..]
  {
    NextPageFound(s, c, pg, ci);
    var (ip, idx, page) := NextSlot(s, c.ip, c.idx);
    var c' := Cursor(ip, page, 0, c.total - c.block, Min(c.total - c.block, PAGE_SIZE), idx);
    if c.idx + 1 >= UsedCntOf(s, c.ip) { NextHeaderDiffers(s, c, pg, ci); }
    MovesToNextPage(s, c, c', pg, ci, ChainAfter(c, ip, ci));
  }

  lemma NextHeaderDiffers(s: Snap, c: Cursor, pg: nat, ci: nat)
    requires Struct(s) && Located(s, c, pg, ci) && pg + 1 < |s.payload|
    requires c.ip.IndexPageAt? ==> c.ip.p in s.pages && s.pages[c.ip.p].Index?
    requires c.idx + 1 >= UsedCntOf(s, c.ip)
    ensures IndexPageAt(NextOf(s, c.ip)) != c.ip
  {
    if c.ip.IndexPageAt? { assert IndexPageOk(s, ci); }
  }

  // ----- a message that is used again after it was cleared -----

  /** impl_clear: the entry count and the local slots survive. */
  function ClearedImage(img: Image): Image {
    img.(next := NULL, pageCnt := 0, lip := NULL, currentPage := NULL, totalSz := 0)
  }

  /** A cleared message is an empty one, fit for another use, whose header counts all the
      entries it counted before. */
  lemma ClearedWellFormed(s: Snap, pages: map<Ptr, Page>)
    requires Releasable(s)
    ensures var e := Snap(ClearedImage(s.img), pages, [], []);
            WellFormed(e) && Contents(e) == [] && Surplus(e) == s.img.usedCnt && Owned(e) == {}
  {}

  /** The header or index page, and the index in it, from which page `pg` is read. */
  ghost predicate Entry(s: Snap, pg: nat, ip: HeaderRef, idx: nat) {
    if pg < LOCAL_SLOTS then ip == FirstHeader && idx == pg
    else
      var ci := (pg - LOCAL_SLOTS) / MAX_ADDRESSED;
      ci < |s.chain| && ip == IndexPageAt(s.chain[ci]) && idx == (pg - LOCAL_SLOTS) % MAX_ADDRESSED
  }

  /** From every page but the last, the page change is safe and finds the next page. */
  ghost predicate ReadsBack(s: Snap) {
    forall pg: nat, ip: HeaderRef, idx: nat | pg + 1 < |s.payload| && Entry(s, pg, ip, idx) ::
      Steppable(s, ip, idx) && NextSlot(s, ip, idx).2 == s.payload[pg + 1]
  }

  /** A message can be read through if and only if its header counts right or it has no
      more pages than local slots. */
  lemma ReadsBackExactly(s: Snap)
    requires Struct(s)
    ensures ReadsBack(s) <==> Surplus(s) == 0 || |s.payload| <= LOCAL_SLOTS
  {
    if Surplus(s) == 0 || |s.payload| <= LOCAL_SLOTS {
      forall pg: nat, ip: HeaderRef, idx: nat | pg + 1 < |s.payload| && Entry(s, pg, ip, idx)
        ensures Steppable(s, ip, idx) && NextSlot(s, ip, idx).2 == s.payload[pg + 1]
      {
        var ci: nat := if pg < LOCAL_SLOTS then 0 else (pg - LOCAL_SLOTS) / MAX_ADDRESSED;
        NextPageFound(s, Cursor(ip, s.payload[pg], 0, 1, 1, idx), pg, ci);
      }
    } else {
      assert Entry(s, LOCAL_SLOTS - 1, FirstHeader, LOCAL_SLOTS - 1);
      assert !Steppable(s, FirstHeader, LOCAL_SLOTS - 1);
    }
  }

  /** The assertion at include/internal_msg.h:458, that an empty message has no first page,
      holds if and only if the message was never cleared while it held pages. */
  lemma EmptyHasNoFirstPage(s: Snap)
    requires WellFormed(s) && s.img.totalSz == 0
    ensures s.img.firstPages[0] == NULL <==> Surplus(s) == 0
  {}
}
