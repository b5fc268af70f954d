/** The paged message buffer and its read iterator (include/internal_msg.h:71-557). */
module InternalMsgModule {
  import opened PageMemory
  import opened MsgLayout
  import opened MsgCursor
  import opened MsgImage

  class InternalMsg {
    const mem: Memory

    // firstHeader
    var next: Ptr
    var usedCnt: nat
    var firstPages: seq<Ptr>
    // the other fields, in order
    var pageCnt: nat
    var lip: Ptr
    var currentPage: Ptr
    var totalSz: nat

    ghost var payload: seq<Ptr>
    ghost var chain: seq<Ptr>

    function Img(): Image
      reads this
    {
      Image(next, usedCnt, firstPages, pageCnt, lip, currentPage, totalSz)
    }

    ghost function S(): Snap
      reads this, mem
    {
      Snap(Img(), mem.pages, payload, chain)
    }

    ghost predicate Valid()
      reads this, mem
    {
      WellFormed(S())
    }

    /** What a reader of the message gets. */
    ghost function Bytes(): seq<MemByte>
      requires Valid()
      reads this, mem
    {
      Contents(S())
    }

    ghost function Pages(): set<Ptr>
      reads this, mem
    {
      Owned(S())
    }

    /** As the default constructor leaves it. */
    ghost predicate IsFresh()
      reads this, mem
      ensures IsFresh() ==> Valid() && Bytes() == [] && Pages() == {} && Surplus(S()) == 0
    {
      Img() == EMPTY_IMAGE && payload == [] && chain == []
    }

    constructor (mem: Memory)
      ensures this.mem == mem && IsFresh()
    {
      this.mem := mem;
      next, usedCnt, firstPages := NULL, 0, [NULL, NULL, NULL, NULL];
      pageCnt, lip, currentPage, totalSz := 0, NULL, NULL, 0;
      payload, chain := [], [];
    }

    function OffsetInCurrentPage(): nat
      reads this
    {
      totalSz % PAGE_SIZE
    }

    function RemainingSizeInCurrentPage(): nat
      reads this
    {
      PAGE_SIZE - OffsetInCurrentPage()
    }

    method AddPage() returns (ghost ip: Ptr)
      requires Struct(S()) && currentPage == NULL && totalSz <= pageCnt * PAGE_SIZE
      modifies this, mem
      ensures PageAdded(old(S()), S(), currentPage, ip)
    {
      hide PagesOk;
      ghost var s := S();
      ip := NULL;
      if pageCnt < LOCAL_SLOTS {
        assert next == NULL && lip == NULL by { assert chain == []; }
        var page := mem.Acquire();
        firstPages := firstPages[pageCnt := page];
        currentPage := firstPages[pageCnt];
        usedCnt := usedCnt + 1;
      } else if lip == NULL {
        LipShape(s);
        assert next == NULL;
        lip := mem.Acquire();
        next := lip;
        currentPage := mem.Acquire();
        mem.InitIndex(lip, currentPage);
        ip := lip;
        chain := [lip];
        assert mem.pages == s.pages[currentPage := mem.pages[currentPage]][ip := mem.pages[ip]];
      } else {
        LipShape(s);
        if mem.pages[lip].usedCnt == MAX_ADDRESSED {
          assert next != NULL;
          var nextip := mem.Acquire();
          currentPage := mem.Acquire();
          mem.InitIndex(nextip, currentPage);
          mem.SetNext(lip, nextip);
          ip := nextip;
          chain := chain + [nextip];
          assert mem.pages == s.pages[currentPage := mem.pages[currentPage]][ip := mem.pages[ip]][lip := mem.pages[lip]];
          lip := nextip;
        } else {
          assert next != NULL && mem.pages[lip].usedCnt < MAX_ADDRESSED;
          currentPage := mem.Acquire();
          mem.PushEntry(lip, currentPage);
        }
      }
      pageCnt := pageCnt + 1;
      payload := payload + [currentPage];
    }

    method ReserveSpaceForConvertionToTag()
      requires Valid() && totalSz == 0
      modifies this, mem
      ensures Fillable(S()) && totalSz == RESERVED && Evolves(old(S()), S())
    {
      ghost var s0 := S();
      ghost var ip := AddPage();
      PageAddedOpens(s0, S(), currentPage, ip);
      ghost var s := S();
      assert RESERVED < RemainingSizeInCurrentPage();
      totalSz := totalSz + RESERVED;
      ReservedOpens(s0, s);
    }

    /** The opening of append and appendUint8: make sure there is a page to write to. */
    method EnsureCurrentPage()
      requires Valid()
      modifies this, mem
      ensures Fillable(S()) && Evolves(old(S()), S())
      ensures totalSz == if old(totalSz) == 0 then RESERVED else old(totalSz)
    {
      EvolvesRefl(S());
      if currentPage == NULL {
        if totalSz != 0 {
          ghost var s0 := S();
          ghost var ip := AddPage();
          PageAddedOpens(s0, S(), currentPage, ip);
        } else {
          ReserveSpaceForConvertionToTag();
        }
      }
    }

    /** memcpy( currentPage.page() + offsetInCurrentPage(), ... ) and the size update after it. */
    method CopyIn(data: seq<MemByte>)
      requires Fillable(S()) && totalSz >= RESERVED && 0 < |data| <= RemainingSizeInCurrentPage()
      modifies this, mem
      ensures Valid() && Evolves(old(S()), S())
      ensures Bytes() == old(Stream(S()))[RESERVED..] + data
    {
      ghost var s := S();
      WriteOffset(s);
      var remainingInPage := RemainingSizeInCurrentPage();
      mem.Store(currentPage, OffsetInCurrentPage(), data);
      totalSz := totalSz + |data|;
      if |data| == remainingInPage {
        currentPage := NULL;
      }
      assert Filled(s, S(), data);
      FilledValid(s, S(), data);
    }

    /** One round of the append loop: fill the open page as far as the data goes. */
    method AppendChunk(src: Source, done: nat, left: nat) returns (n: nat)
      requires Valid() && left != 0 && Settled(S(), src, done + left)
      modifies this, mem
      ensures 0 < n <= left
      ensures Appended(old(S()), S(), Fetch(old(mem.pages), src, done, n))
    {
      hide PagesOk, HeaderOk, Evolves;
      ghost var s1 := S();
      EnsureCurrentPage();
      ghost var s2 := S();
      SettledStays(s1, s2, src, done + left);
      OpenedContents(s1, s2);
      var remainingInPage := RemainingSizeInCurrentPage();
      n := if left <= remainingInPage then left else remainingInPage;
      var data := Fetch(mem.pages, src, done, n);
      FetchSame(s1.pages, s2.pages, src, done, n, done + left);
      CopyIn(data);
      EvolvesTrans(s1, s2, S());
    }

    method AppendMore(ghost s0: Snap, src: Source, done: nat, sz: nat) returns (n: nat)
      requires done < sz && AppendProgress(s0, S(), src, done, sz)
      modifies this, mem
      ensures 0 < n <= sz - done && AppendProgress(s0, S(), src, done + n, sz)
    {
      ghost var s1 := S();
      SettledStays(s0, s1, src, sz);
      n := AppendChunk(src, done, sz - done);
      AppendRound(s0, s1, S(), src, done, n, sz);
    }

    /** append(const void*, size_t). The source is read anew at every memcpy, so it may be a
        stored run of this very message. */
    method AppendFrom(src: Source, sz: nat)
      requires Valid() && Settled(S(), src, sz)
      modifies this, mem
      ensures Appended(old(S()), S(), Fetch(old(mem.pages), src, 0, sz))
    {
      hide WellFormed, Appended, AppendProgress, Settled, Fetch;
      ghost var s0 := S();
      AppendStarts(s0, src, sz);
      var left: nat, done: nat := sz, 0;
      while left != 0
        invariant done + left == sz && AppendProgress(s0, S(), src, done, sz)
      {
        var n := AppendMore(s0, src, done, sz);
        left := left - n;
        done := done + n;
      }
      AppendEnds(s0, S(), src, sz);
    }

    method Append(buff: seq<MemByte>)
      requires Valid()
      modifies this, mem
      ensures Valid() && Evolves(old(S()), S())
      ensures Bytes() == old(Bytes()) + buff
    {
      AppendFrom(Buffer(buff), |buff|);
    }

    method AppendUint8(what: MemByte)
      requires Valid()
      modifies this, mem
      ensures Valid() && Evolves(old(S()), S())
      ensures Bytes() == old(Bytes()) + [what]
    {
      ghost var s0 := S();
      EnsureCurrentPage();
      ghost var s1 := S();
      OpenedContents(s0, s1);
      WriteOffset(s1);
      CopyIn([what]);
      EvolvesTrans(s0, s1, S());
    }

    function Size(): (r: nat)
      requires Valid()
      reads this, mem
      ensures r == |Bytes()|
    {
      if totalSz != 0 then totalSz - RESERVED else 0
    }

    // ----- reading, and appending what is read -----

    method GetReadIter() returns (it: ReadIter)
      requires Valid() && ReadsBack(S())
      ensures fresh(it) && it.msg == this && it.Valid()
      ensures it.Left() == Bytes() && it.currentOffset == 0
    {
      ReadsBackExactly(S());
      if totalSz != 0 {
        it := new ReadIter(this, firstPages[0], RESERVED, totalSz - RESERVED);
      } else {
        it := new ReadIter(this, NULL, 0, 0);
      }
    }

    /** One round of append(ReadIter, size_t): a single directRead, appended from where it lies. */
    method AppendBlock(c: ReadIter, pending: nat) returns (currentSz: nat)
      requires Valid() && c.Valid() && c.msg.mem == mem && 0 < pending <= c.totalSz
      requires c.msg == this || c.msg.Pages() !! Pages()
      modifies this, mem, c
      ensures 0 < currentSz <= pending
      ensures Valid() && Evolves(old(S()), S()) && Bytes() == old(Bytes()) + old(c.Left())[..currentSz]
      ensures c.msg != this ==> c.msg.S() == old(c.msg.S()).(pages := mem.pages) && c.msg.Pages() !! Pages()
      ensures c.Valid() && c.Left() == old(c.Left())[currentSz..]
    {
      hide PagesOk, HeaderOk, CursorAt, Remaining, Evolves, Settled, Contents, Surplus;
      currentSz := Min(c.sizeRemainingInBlock, pending);
      var p, off := c.DirectRead(currentSz);
      ghost var s, o, cur, left := S(), c.msg.S(), c.Cur(), c.Left();
      if c.msg != this { OtherSettled(s, o, p, off, currentSz); }
      AppendFrom(InPage(p, off), currentSz);
      if c.msg == this {
        CursorStable(s, S(), cur, c.pg, c.ci);
      } else {
        OtherStable(o, s, S());
        OtherCursor(o, c.msg.S(), cur, c.pg, c.ci);
      }
    }

    /** The loop of append(ReadIter, size_t) over the by-value copy of the iterator. */
    method AppendBlocks(c: ReadIter, total: nat)
      requires Valid() && c.Valid() && c.msg.mem == mem && total <= c.totalSz
      requires c.msg == this || c.msg.Pages() !! Pages()
      modifies this, mem, c
      ensures Valid() && Evolves(old(S()), S())
      ensures Bytes() == old(Bytes()) + old(c.Left())[..total]
      ensures c.msg != this ==> c.msg.S() == old(c.msg.S()).(pages := mem.pages)
    {
      hide PagesOk, HeaderOk, Evolves, CursorAt, Remaining, Contents;
      ghost var s0, o0, all := S(), c.msg.S(), c.Left();
      EvolvesRefl(s0);
      var pending: nat := total;
      while pending != 0
        invariant pending <= total
        invariant Valid() && Evolves(s0, S())
        invariant c.msg != this ==> c.msg.S() == o0.(pages := mem.pages) && c.msg.Pages() !! Pages()
        invariant c.Valid() && pending <= |c.Left()|
        invariant Bytes() + c.Left() == Contents(s0) + all && |c.Left()| == |all| - (total - pending)
      {
        ghost var s1, left := S(), c.Left();
        var currentSz := AppendBlock(c, pending);
        EvolvesTrans(s0, s1, S());
        Shift(Contents(s1), left, currentSz);
        pending := pending - currentSz;
      }
      Unshift(Bytes(), c.Left(), Contents(s0), all, total);
    }

    /** append(ReadIter, size_t): the iterator may walk this very message. The caller's
        iterator is passed by value and does not move. */
    method AppendIter(it: ReadIter, sz: nat)
      requires Valid() && it.Valid() && it.msg.mem == mem
      requires it.msg == this || it.msg.Pages() !! Pages()
      modifies this, mem
      ensures Valid() && Evolves(old(S()), S())
      ensures Bytes() == old(Bytes()) + old(it.Left())[..Min(sz, old(it.totalSz))]
      ensures it.msg.Valid() && it.Valid() && it.Left() == old(it.Left())
      ensures it.msg != this ==> it.msg.S() == old(it.msg.S()).(pages := mem.pages)
    {
      hide PagesOk, HeaderOk, Evolves, CursorAt, Remaining, Contents;
      ghost var s0, o0 := S(), it.msg.S();
      var c := new ReadIter.Copy(it);
      AppendBlocks(c, Min(sz, it.totalSz));
      if it.msg == this {
        CursorStable(s0, S(), it.Cur(), it.pg, it.ci);
      } else {
        OtherStable(o0, s0, S());
        OtherCursor(o0, it.msg.S(), it.Cur(), it.pg, it.ci);
      }
    }

    // ----- releasing -----

    /** One round of the release loop: the first index page of what is left of the chain,
        its entries first. `s` is the message as it was, c the index pages already released. */
    method ReleaseIndexPage(ghost s: Snap, ghost c: nat)
      requires Releasable(s) && c < |s.chain| && next == s.chain[c]
      requires mem.pages == s.pages - ReleasedBy(s, c) && pageCnt == PagesLeft(s, c)
      modifies this`next, this`pageCnt, mem
      ensures mem.pages == s.pages - ReleasedBy(s, c + 1) && pageCnt == PagesLeft(s, c + 1)
      ensures next == if c + 1 < |s.chain| then s.chain[c + 1] else NULL
      ensures next == NULL <==> c + 1 == |s.chain|
    {
      hide Releasable, IndexPageOk, ReleasedBy, PagesLeft;
      ghost var rel0 := LOCAL_SLOTS + c * MAX_ADDRESSED;
      IndexPageStillThere(s, c, rel0);
      assert pageCnt > LOCAL_SLOTS || mem.pages[next].next == NULL;
      assert mem.pages[next].usedCnt <= pageCnt;
      var j := 0;
      while j < mem.pages[next].usedCnt
        invariant next == s.chain[c] && next in mem.pages && mem.pages[next] == s.pages[next]
        invariant pageCnt == PagesLeft(s, c)
        invariant j <= s.pages[next].usedCnt
        invariant mem.pages == s.pages - (Elems(s.payload[..rel0 + j]) + Elems(s.chain[..c]))
      {
        ReleaseEntry(s, c, j, rel0 + j);
        mem.Release(mem.pages[next].entries[j]);
        j := j + 1;
      }
      pageCnt := pageCnt - mem.pages[next].usedCnt;
      var page := next;
      next := mem.pages[next].next;
      assert Elems(s.chain[..c + 1]) == Elems(s.chain[..c]) + {s.chain[c]};
      mem.Release(page);
    }

    method ReleaseLocalPages() returns (i: nat)
      requires Releasable(S())
      modifies mem
      ensures i == Min(LOCAL_SLOTS, |payload|)
      ensures mem.pages == old(mem.pages) - Elems(payload[..i])
    {
      ghost var s := S();
      OwnedLive(s);
      i := 0;
      while i < LOCAL_SLOTS && i < pageCnt
        invariant i <= LOCAL_SLOTS && i <= |s.payload|
        invariant mem.pages == s.pages - Elems(s.payload[..i])
      {
        assert s.payload[i] !in s.payload[..i] && s.payload[i] in s.pages;
        assert Elems(s.payload[..i + 1]) == Elems(s.payload[..i]) + {s.payload[i]};
        mem.Release(firstPages[i]);
        i := i + 1;
      }
    }

    /** Every owned page, payload or index, goes back to the heap exactly once. */
    method ReleaseAllPages()
      requires Releasable(S())
      modifies this, mem
      ensures mem.pages == old(mem.pages) - old(Pages())
      ensures Img() == old(Img()).(next := NULL, pageCnt := 0)
      ensures payload == [] && chain == []
    {
      hide PagesOk;
      ghost var s := S();
      var i := ReleaseLocalPages();
      pageCnt := pageCnt - i;
      ghost var c := 0;
      ChainHead(s);
      assert i == Min(LOCAL_SLOTS, |s.payload|) && ReleasedBy(s, 0) == Elems(s.payload[..i]);
      if pageCnt != 0 {
        assert next != NULL;
        while next != NULL
          invariant c <= |s.chain| && (next == NULL <==> c == |s.chain|)
          invariant next == (if c < |s.chain| then s.chain[c] else NULL)
          invariant mem.pages == s.pages - ReleasedBy(s, c) && pageCnt == PagesLeft(s, c)
          invariant Img() == s.img.(next := next, pageCnt := pageCnt)
          decreases |s.chain| - c
        {
          ReleaseIndexPage(s, c);
          c := c + 1;
        }
      }
      assert c == |s.chain| && ReleasedBy(s, c) == Owned(s) by {
        assert s.payload[..|s.payload|] == s.payload && s.chain[..|s.chain|] == s.chain;
      }
      payload, chain := [], [];
    }

    // ----- clearing and moving -----

    /** impl_clear / clear. The entry counter of the header and the local slots keep their
        stale values: the result is an empty message that can be used again, with a surplus. */
    method Clear()
      requires Releasable(S())
      modifies this, mem
      ensures mem.pages == old(mem.pages) - old(Pages())
      ensures Img() == ClearedImage(old(Img()))
      ensures payload == [] && chain == []
      ensures Valid() && Bytes() == [] && Surplus(S()) == old(usedCnt)
    {
      hide WellFormed, Releasable, Contents, Owned;
      ghost var was := S();
      ReleaseAllPages();
      next, lip, currentPage, totalSz := NULL, NULL, NULL, 0;
      ClearedWellFormed(was, mem.pages);
      assert S() == Snap(ClearedImage(was.img), mem.pages, [], []);
    }

    /** The fields of `other` move here; `other` is left as a fresh message. */
    method TakeFrom(other: InternalMsg)
      requires other != this && other.Valid() && mem == other.mem
      modifies this, other
      ensures S() == old(other.S())
      ensures other.IsFresh()
    {
      hide WellFormed, Contents, Owned;
      usedCnt, other.usedCnt := other.usedCnt, 0;
      next, other.next := other.next, NULL;
      firstPages, other.firstPages := other.firstPages, [NULL, NULL, NULL, NULL];
      pageCnt, other.pageCnt := other.pageCnt, 0;
      lip, other.lip := other.lip, NULL;
      currentPage, other.currentPage := other.currentPage, NULL;
      totalSz, other.totalSz := other.totalSz, 0;
      payload, chain := other.payload, other.chain;
      other.payload, other.chain := [], [];
    }

    /** InternalMsg( InternalMsg&& ) */
    constructor MoveFrom(other: InternalMsg)
      requires other.Valid()
      modifies other
      ensures mem == other.mem && S() == old(other.S())
      ensures Valid() && Bytes() == old(other.Bytes())
      ensures other.IsFresh()
    {
      mem := other.mem;
      next, usedCnt, firstPages := NULL, 0, [NULL, NULL, NULL, NULL];
      pageCnt, lip, currentPage, totalSz := 0, NULL, NULL, 0;
      payload, chain := [], [];
      new;
      TakeFrom(other);
    }

    /** operator = ( InternalMsg&& ). The target may be in the state a bare clear leaves. */
    method MoveAssign(other: InternalMsg)
      requires other.Valid() && mem == other.mem
      requires other != this ==> Releasable(S()) && Pages() !! other.Pages()
      modifies this, other, mem
      ensures other == this ==> S() == old(S())
      ensures Valid() && Bytes() == old(other.Bytes())
      ensures other != this ==>
                && S() == old(other.S()).(pages := mem.pages)
                && mem.pages == old(mem.pages) - old(Pages())
                && other.IsFresh()
    {
      hide PagesOk, HeaderOk, SizeOk, Stream, Contents, AppArea;
      if this == other { return; }
      ghost var o, mine := other.S(), Pages();
      FrameReleased(o, mine);
      Clear();
      assert other.S() == o.(pages := o.pages - mine);
      TakeFrom(other);
    }

    // ----- the application area -----

    /** On an empty message this adds the first page without reserving the prefix, which
        leaves a message whose size no longer matches its pages. */
    method AppWriteData(data: seq<MemByte>, offset: nat)
      requires Valid() && offset + |data| <= APP_RESERVED
      modifies this, mem
      ensures AppWritten(old(S()), S(), offset, data)
    {
      hide PagesOk, Evolves, PageAdded, AppWritten, Stream, Contents, AppArea;
      ghost var s0 := S();
      EvolvesRefl(s0);
      if totalSz == 0 {
        assert currentPage == NULL && payload == [];
        ghost var ip := AddPage();
        PageAddedOpens(s0, S(), currentPage, ip);
        OnlyPage(s0, S(), currentPage, ip);
      }
      ghost var s1 := S();
      FirstPage(s1);
      mem.Store(firstPages[0], RESERVED - APP_RESERVED + offset, data);
      AppWriteStep(s0, s1, S(), offset, data);
    }

    method AppReadData(offset: nat, sz: nat) returns (data: seq<MemByte>)
      requires Struct(S()) && offset + sz <= APP_RESERVED && payload != []
      ensures data == AppArea(S())[offset..offset + sz]
    {
      hide PagesOk;
      FirstPage(S());
      assert firstPages[0] != NULL;
      var appPrefix := RESERVED - APP_RESERVED;
      ghost var cells := Cells(mem.pages, payload[0]);
      assert cells[IMAGE_SIZE..RESERVED][offset..offset + sz] == cells[IMAGE_SIZE + offset..IMAGE_SIZE + offset + sz];
      data := mem.pages[firstPages[0]].cells[appPrefix + offset..appPrefix + offset + sz];
    }

    // ----- folding into the first page -----

    /** memcpy or memset over the whole object. */
    method SetFields(img: Image, ghost payload: seq<Ptr>, ghost chain: seq<Ptr>)
      modifies this
      ensures Img() == img && this.payload == payload && this.chain == chain
    {
      next, usedCnt, firstPages := img.next, img.usedCnt, img.firstPages;
      pageCnt, lip, currentPage, totalSz := img.pageCnt, img.lip, img.currentPage, img.totalSz;
      this.payload, this.chain := payload, chain;
    }

    method ConvertToPointer() returns (p: Ptr)
      requires Valid()
      modifies this, mem
      ensures old(totalSz) == 0 ==> p == NULL && S() == old(S())
      ensures old(totalSz) != 0 ==>
                && IsFresh()
                && var folded := old(S()).(pages := mem.pages);
                && FoldedAt(folded, p) && p != NULL
                && Contents(folded) == old(Bytes()) && AppArea(folded) == old(AppArea(S()))
                && p in old(mem.pages) && mem.pages == old(mem.pages)[p := mem.pages[p]]
    {
      hide PagesOk, EncodeImage, Stream, Contents, AppArea;
      if totalSz != 0 {
        ghost var s := S();
        FirstPage(S());
        assert firstPages[0] != NULL;
        var prefix := firstPages[0];
        mem.Store(prefix, 0, EncodeImage(Img()));
        FoldStep(s, S());
        SetFields(EMPTY_IMAGE, [], []);
        p := prefix;
      } else {
        p := NULL;
      }
    }

    /** `folded` describes the message whose image is at ptr. */
    method RestoreFromPointer(ptr: Ptr, ghost folded: Snap)
      requires Releasable(S())
      requires ptr != NULL ==> FoldedAt(folded, ptr) && folded.pages == mem.pages && Owned(folded) !! Pages()
      modifies this, mem
      ensures mem.pages == old(mem.pages) - old(Pages())
      ensures ptr != NULL ==>
                && S() == folded.(pages := mem.pages) && Valid()
                && Bytes() == Contents(folded) && AppArea(S()) == AppArea(folded)
      ensures ptr == NULL ==>
                && Img() == ClearedImage(old(Img()))
                && payload == [] && chain == []
                && Valid() && Bytes() == [] && Surplus(S()) == old(usedCnt)
    {
      hide PagesOk, HeaderOk, EncodeImage, DecodeImage, Stream, Contents, AppArea;
      ghost var mine := Pages();
      if ptr != NULL {
        FrameReleased(folded, mine);
        assert ptr in Owned(folded);
      }
      Clear();
      if ptr != NULL {
        var bytes := mem.pages[ptr].cells;
        var img := DecodeImage(bytes[..IMAGE_SIZE]);
        FoldedImage(folded, ptr);
        SetFields(img, folded.payload, folded.chain);
      }
    }
  }

  /** ReadIter (include/internal_msg.h:222-357). The page pointer is a page and an offset. */
  class ReadIter {
    const msg: InternalMsg
    var ip: HeaderRef
    var page: Ptr
    var off: nat
    var totalSz: nat
    var sizeRemainingInBlock: nat
    var idxInIndexPage: nat
    var currentOffset: nat

    // which payload page, and which index page of the chain, the cursor is on
    ghost var pg: nat
    ghost var ci: nat

    function Cur(): Cursor
      reads this
    {
      Cursor(ip, page, off, totalSz, sizeRemainingInBlock, idxInIndexPage)
    }

    ghost predicate Valid()
      reads this, msg, msg.mem
      ensures Valid() ==> sizeRemainingInBlock <= totalSz && (sizeRemainingInBlock == 0 <==> totalSz == 0)
    {
      msg.Valid() && CursorAt(msg.S(), Cur(), pg, ci)
    }

    /** The bytes still to be delivered. */
    ghost function Left(): (r: seq<MemByte>)
      requires Valid()
      reads this, msg, msg.mem
      ensures |r| == totalSz
    {
      Remaining(msg.S(), Cur(), pg, ci)
    }

    constructor (msg: InternalMsg, page: Ptr, off: nat, sz: nat)
      requires msg.Valid() && Walkable(msg.S(), msg.totalSz)
      requires sz == (if msg.totalSz == 0 then 0 else msg.totalSz - RESERVED)
      requires msg.totalSz != 0 ==> page == msg.firstPages[0] && off == RESERVED
      ensures this.msg == msg && Valid() && Left() == msg.Bytes() && currentOffset == 0
    {
      this.msg := msg;
      this.ip, this.page, this.off, this.totalSz := FirstHeader, page, off, sz;
      this.sizeRemainingInBlock := if sz <= PAGE_SIZE - RESERVED then sz else PAGE_SIZE - RESERVED;
      this.idxInIndexPage, this.currentOffset := 0, 0;
      this.pg, this.ci := 0, 0;
    }

    constructor Copy(it: ReadIter)
      ensures msg == it.msg && Cur() == it.Cur() && currentOffset == it.currentOffset
      ensures pg == it.pg && ci == it.ci
    {
      msg, ip, page, off, totalSz := it.msg, it.ip, it.page, it.off, it.totalSz;
      sizeRemainingInBlock, idxInIndexPage, currentOffset := it.sizeRemainingInBlock, it.idxInIndexPage, it.currentOffset;
      pg, ci := it.pg, it.ci;
    }

    function UsedCnt(): nat
      requires ip.IndexPageAt? ==> ip.p in msg.mem.pages && msg.mem.pages[ip.p].Index?
      reads this, msg, msg.mem
    {
      if ip.FirstHeader? then msg.usedCnt else msg.mem.pages[ip.p].usedCnt
    }

    function DirectlyAvailableSize(): nat
      reads this
    {
      sizeRemainingInBlock
    }

    /** The common part of every read: consume sz bytes of the block, and step to the next
        page if the block is used up and data remains. The entry count is looked up now. */
    method ImplSkip(sz: nat)
      requires Valid() && sz <= sizeRemainingInBlock
      modifies this
      ensures Valid() && Left() == old(Left())[sz..] && currentOffset == old(currentOffset)
      ensures totalSz != 0 && sz == old(sizeRemainingInBlock) ==> sizeRemainingInBlock == Min(totalSz, PAGE_SIZE)
      ensures totalSz == 0 || sz < old(sizeRemainingInBlock) ==> sizeRemainingInBlock == old(sizeRemainingInBlock) - sz
    {
      hide PagesOk, HeaderOk, CursorAt, Remaining, Steppable, NextSlot;
      ghost var s, c := msg.S(), Cur();
      sizeRemainingInBlock := sizeRemainingInBlock - sz;
      totalSz := totalSz - sz;
      if totalSz != 0 && sizeRemainingInBlock == 0 {
        StepSafe(s, c, pg, ci);
        StepToNextPage();
        pg, ci := pg + 1, ChainAfter(c, ip, ci);
        assert msg.S() == s && CursorAt(s, Cur(), pg, ci);
      } else {
        off := off + sz;
        StaysOnPage(s, c, pg, ci, sz);
        assert msg.S() == s && CursorAt(s, Cur(), pg, ci);
      }
    }

    /** The page change inside impl_skip and directRead. */
    method StepToNextPage()
      requires Steppable(msg.S(), ip, idxInIndexPage)
      modifies this`ip, this`idxInIndexPage, this`page, this`off, this`sizeRemainingInBlock
      ensures (ip, idxInIndexPage, page) == NextSlot(msg.S(), old(ip), old(idxInIndexPage))
      ensures off == 0 && sizeRemainingInBlock == Min(totalSz, PAGE_SIZE)
    {
      if idxInIndexPage + 1 >= UsedCnt() {
        ip := IndexPageAt(if ip.FirstHeader? then msg.next else msg.mem.pages[ip.p].next);
        idxInIndexPage := 0;
        page := msg.mem.pages[ip.p].entries[idxInIndexPage];
      } else {
        idxInIndexPage := idxInIndexPage + 1;
        page := if ip.FirstHeader? then msg.firstPages[idxInIndexPage] else msg.mem.pages[ip.p].entries[idxInIndexPage];
      }
      off := 0;
      sizeRemainingInBlock := if totalSz <= PAGE_SIZE then totalSz else PAGE_SIZE;
    }

    /** Returns where the next sz bytes lie; they form one run. */
    method DirectRead(sz: nat) returns (p: Ptr, o: nat)
      requires Valid() && sz <= sizeRemainingInBlock
      modifies this
      ensures Valid() && Left() == old(Left())[sz..]
      ensures totalSz != 0 && sz == old(sizeRemainingInBlock) ==> sizeRemainingInBlock == Min(totalSz, PAGE_SIZE)
      ensures totalSz == 0 || sz < old(sizeRemainingInBlock) ==> sizeRemainingInBlock == old(sizeRemainingInBlock) - sz
      ensures currentOffset == old(currentOffset) + sz
      ensures sz > 0 ==> p in msg.Pages() && Settled(msg.S(), InPage(p, o), sz)
      ensures sz > 0 ==> o + sz <= |Cells(msg.mem.pages, p)|
      ensures sz > 0 ==> Fetch(msg.mem.pages, InPage(p, o), 0, sz) == old(Left())[..sz]
    {
      p, o := page, off;
      if sz > 0 { CursorRun(msg.S(), Cur(), pg, ci, sz); }
      ImplSkip(sz);
      currentOffset := currentOffset + sz;
    }

    /** read( buff, size ): `out` is what lands in the buffer. */
    method Read(size: nat) returns (out: seq<MemByte>)
      requires Valid()
      modifies this
      ensures out == old(Left())[..Min(size, old(totalSz))]
      ensures Valid() && Left() == old(Left())[|out|..]
      ensures currentOffset == old(currentOffset) + |out|
    {
      hide PagesOk, HeaderOk, CursorAt, Settled;
      out := [];
      var size' := size;
      ghost var all := Left();
      var asz := DirectlyAvailableSize();
      while asz != 0
        invariant Valid() && asz == sizeRemainingInBlock
        invariant |out| + size' == size && |out| <= |all|
        invariant out == all[..|out|] && Left() == all[|out|..]
        invariant currentOffset == old(currentOffset) + |out|
        decreases totalSz
      {
        var n := if size' <= asz then size' else asz;
        var p, o := DirectRead(n);
        if n > 0 { out := out + Fetch(msg.mem.pages, InPage(p, o), 0, n); }
        if size' <= asz {
          break;
        }
        size' := size' - n;
        asz := DirectlyAvailableSize();
      }
    }

    /** skip( size ). The cursor moves as promised, but only the last fragment is added to the
        offset, so offset() is right exactly when one fragment, the current block, was enough. */
    method Skip(size: nat) returns (ret: nat)
      requires Valid()
      modifies this
      ensures ret == Min(size, old(totalSz))
      ensures Valid() && Left() == old(Left())[ret..]
      ensures currentOffset == old(currentOffset) + ret <==> ret <= old(sizeRemainingInBlock)
      ensures ret > old(sizeRemainingInBlock) ==>
                currentOffset == old(currentOffset) + (ret - old(sizeRemainingInBlock) - 1) % 4096 + 1
    {
      hide WellFormed, CursorAt, Remaining, LastFragment;
      var size': nat := if size > totalSz then totalSz else size;
      ret := size';
      ghost var all, block := Left(), sizeRemainingInBlock;
      var asz := DirectlyAvailableSize();
      while asz != 0
        invariant Valid() && asz == sizeRemainingInBlock
        invariant size' <= ret <= |all| && size' <= totalSz && Left() == all[ret - size'..]
        invariant currentOffset == old(currentOffset)
        invariant (size' == ret && asz == block) || (0 < size' < ret && block < ret && LastFragment(ret - block, size') && asz == Min(totalSz, PAGE_SIZE))
        decreases totalSz
      {
        if size' <= asz {
          if size' < ret { FragmentIs(ret - block, size'); }
          ImplSkip(size');
          assert all[ret - size'..][size'..] == all[ret..];
          break;
        } else {
          if size' < ret { FragmentShrinks(ret - block, size'); } else { FragmentStarts(ret - block); }
          ImplSkip(asz);
          size' := size' - asz;
        }
        asz := DirectlyAvailableSize();
      }
      ghost var s, c := msg.S(), Cur();
      currentOffset := currentOffset + size';
      assert msg.S() == s && Cur() == c;
    }

    /** operator * */
    method Deref() returns (b: MemByte)
      requires Valid() && totalSz != 0
      ensures b == Left()[0]
    {
      CursorRun(msg.S(), Cur(), pg, ci, 1);
      b := Fetch(msg.mem.pages, InPage(page, off), 0, 1)[0];
    }

    /** operator ++ */
    method Increment()
      requires Valid() && totalSz != 0
      modifies this
      ensures Valid() && Left() == old(Left())[1..] && currentOffset == old(currentOffset) + 1
    {
      ImplSkip(1);
      currentOffset := currentOffset + 1;
    }

    method ReadChar() returns (b: MemByte)
      requires Valid() && totalSz != 0
      modifies this
      ensures b == old(Left())[0]
      ensures Valid() && Left() == old(Left())[1..] && currentOffset == old(currentOffset) + 1
    {
      b := Deref();
      ImplSkip(1);
      currentOffset := currentOffset + 1;
    }
  }

  /** What is back on the heap once the local slots and c index pages are released. */
  ghost function ReleasedBy(s: Snap, c: nat): set<Ptr>
    requires c <= |s.chain|
  {
    Elems(s.payload[..|s.payload| - PagesLeft(s, c)]) + Elems(s.chain[..c])
  }

  ghost function PagesLeft(s: Snap, c: nat): (r: nat)
    ensures r <= |s.payload|
  {
    if |s.payload| <= LOCAL_SLOTS + c * MAX_ADDRESSED then 0
    else |s.payload| - LOCAL_SLOTS - c * MAX_ADDRESSED
  }

  /** Opening a page for writing shows no new contents. */
  lemma OpenedContents(s: Snap, s': Snap)
    requires WellFormed(s) && Fillable(s') && Evolves(s, s')
    requires s'.img.totalSz == if s.img.totalSz == 0 then RESERVED else s.img.totalSz
    ensures Stream(s')[RESERVED..] == Contents(s)
  {
    if s.img.totalSz != 0 {
      assert Stream(s') == Stream(s);
    }
  }

  /** An append from `src` started in s0 has copied `done` bytes. */
  ghost predicate AppendProgress(s0: Snap, s: Snap, src: Source, done: nat, sz: nat) {
    done <= sz && Settled(s0, src, sz) && Appended(s0, s, Fetch(s0.pages, src, 0, sz)[..done])
  }

  lemma AppendStarts(s0: Snap, src: Source, sz: nat)
    requires WellFormed(s0) && Settled(s0, src, sz)
    ensures AppendProgress(s0, s0, src, 0, sz)
  {
    EvolvesRefl(s0);
  }

  lemma AppendEnds(s0: Snap, s: Snap, src: Source, sz: nat)
    requires AppendProgress(s0, s, src, sz, sz)
    ensures Appended(s0, s, Fetch(s0.pages, src, 0, sz))
  {
    hide Appended;
    var all := Fetch(s0.pages, src, 0, sz);
    assert all[..sz] == all;
  }

  /** One round of the append loop, seen from the start of the append. */
  lemma AppendRound(s0: Snap, s1: Snap, s2: Snap, src: Source, done: nat, n: nat, sz: nat)
    requires done + n <= sz && AppendProgress(s0, s1, src, done, sz) && Settled(s1, src, sz)
    requires Appended(s1, s2, Fetch(s1.pages, src, done, n))
    ensures AppendProgress(s0, s2, src, done + n, sz)
  {
    hide PagesOk, HeaderOk, SizeOk, Evolves, Stream, Contents;
    EvolvesTrans(s0, s1, s2);
    SettledStays(s0, s1, src, sz);
    FetchPart(s1.pages, src, done, n, sz);
    var all := Fetch(s0.pages, src, 0, sz);
    assert all[..done] + all[done..done + n] == all[..done + n];
  }

  lemma ChainHead(s: Snap)
    requires Releasable(s)
    ensures s.chain != [] ==> s.img.next != NULL
  {
    if s.chain != [] { assert IndexPageOk(s, 0); }
  }

  lemma FirstPage(s: Snap)
    requires Struct(s) && s.payload != []
    ensures s.img.firstPages[0] == s.payload[0] && s.payload[0] != NULL && IsPayload(s.pages, s.payload[0])
  {}

  lemma OnlyPage(s: Snap, s': Snap, page: Ptr, ip: Ptr)
    requires PageAdded(s, s', page, ip) && s.payload == []
    ensures |s'.payload| == 1
  {}

  /** The index page at the head of the shrinking chain is intact. */
  lemma IndexPageStillThere(s: Snap, c: nat, rel: nat)
    requires Releasable(s) && c < |s.chain| && rel == LOCAL_SLOTS + c * MAX_ADDRESSED
    ensures rel == |s.payload| - PagesLeft(s, c)
    ensures s.chain[c] in s.pages - ReleasedBy(s, c)
    ensures rel <= |s.payload| && ReleasedBy(s, c) == Elems(s.payload[..rel]) + Elems(s.chain[..c])
    ensures IndexPageOk(s, c) && s.pages[s.chain[c]].Index?
    ensures var ip := s.pages[s.chain[c]];
            && ip.next == (if c + 1 < |s.chain| then s.chain[c + 1] else NULL)
            && (ip.next == NULL <==> c + 1 == |s.chain|)
            && rel + ip.usedCnt <= |s.payload|
            && PagesLeft(s, c + 1) == PagesLeft(s, c) - ip.usedCnt
            && ReleasedBy(s, c + 1) == Elems(s.payload[..rel + ip.usedCnt]) + Elems(s.chain[..c + 1])
            && (PagesLeft(s, c) > LOCAL_SLOTS || ip.next == NULL)
  {
    assert IndexPageOk(s, c);
    if c + 1 < |s.chain| { assert IndexPageOk(s, c + 1) && IndexPageOk(s, |s.chain| - 1); }
  }

  lemma ReleaseEntry(s: Snap, c: nat, j: nat, rel: nat)
    requires Releasable(s) && c < |s.chain| && IndexPageOk(s, c) && j < s.pages[s.chain[c]].usedCnt
    requires rel == LOCAL_SLOTS + c * MAX_ADDRESSED + j && rel < |s.payload|
    ensures j < |s.pages[s.chain[c]].entries|
    ensures var p := s.pages[s.chain[c]].entries[j];
            && p == s.payload[rel] && p in s.pages && p != s.chain[c]
            && p !in Elems(s.payload[..rel]) && p !in Elems(s.chain[..c])
            && Elems(s.payload[..rel + 1]) == Elems(s.payload[..rel]) + {p}
  {
    var ip := s.pages[s.chain[c]];
    assert ip.entries[..ip.usedCnt][j] == s.payload[rel];
    assert IsPayload(s.pages, s.payload[rel]);
  }

  /** What is left of a skip of `past` bytes once only whole pages have been skipped. */
  predicate LastFragment(past: int, left: nat) {
    0 < left <= past && (past - left) % PAGE_SIZE == 0
  }

  lemma FragmentStarts(past: int)
    requires past > 0
    ensures LastFragment(past, past)
  {}

  lemma FragmentShrinks(past: int, left: nat)
    requires LastFragment(past, left) && left > PAGE_SIZE
    ensures LastFragment(past, left - PAGE_SIZE)
  {}

  lemma FragmentIs(past: int, left: nat)
    requires LastFragment(past, left) && left <= PAGE_SIZE
    ensures left == (past - 1) % 4096 + 1
  {}

  /** A message sharing the heap is untouched by another's growth. */
  lemma OtherStable(o: Snap, s: Snap, s': Snap)
    requires WellFormed(o) && o.pages == s.pages && Evolves(s, s') && Owned(o) !! Owned(s)
    ensures WellFormed(o.(pages := s'.pages)) && Contents(o.(pages := s'.pages)) == Contents(o)
    ensures Stream(o.(pages := s'.pages)) == Stream(o)
    ensures Owned(o) !! Owned(s')
  {
    OwnedLive(o);
    assert SameOn(o.pages, s'.pages, Owned(o));
    Frame(o, s'.pages);
  }

  lemma OtherCursor(o: Snap, o': Snap, c: Cursor, pg: nat, ci: nat)
    requires WellFormed(o) && WellFormed(o') && o' == o.(pages := o'.pages) && Stream(o') == Stream(o)
    requires CursorAt(o, c, pg, ci)
    ensures CursorAt(o', c, pg, ci) && Remaining(o', c, pg, ci) == Remaining(o, c, pg, ci)
  {}

  lemma OtherSettled(s: Snap, o: Snap, p: Ptr, off: nat, sz: nat)
    requires WellFormed(s) && o.pages == s.pages && Owned(o) !! Owned(s)
    requires p in Owned(o) && Settled(o, InPage(p, off), sz)
    ensures Settled(s, InPage(p, off), sz)
  {
    forall pg | 0 <= pg < |s.payload| ensures s.payload[pg] != p { assert s.payload[pg] in Owned(s); }
  }

  lemma Shift<T>(front: seq<T>, back: seq<T>, n: nat)
    requires n <= |back|
    ensures front + back == (front + back[..n]) + back[n..]
  {}

  lemma Unshift<T>(front: seq<T>, back: seq<T>, front0: seq<T>, back0: seq<T>, n: nat)
    requires front + back == front0 + back0 && n <= |back0| && |back| == |back0| - n
    ensures front == front0 + back0[..n]
  {
    assert front == (front + back)[..|front|];
    assert (front0 + back0)[..|front0| + n] == front0 + back0[..n];
  }
}
