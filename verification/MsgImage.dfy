/** Folding a message object into the reserved prefix of its own first page, and the byte
    sources an append can copy from (include/internal_msg.h:425-469, 484-522). */
module MsgImage {
  import opened PageMemory
  import opened MsgLayout

  // ----- the ten words of an InternalMsg object as memory bytes -----

  const WORD_SIZE: nat := 8

  function WordBytes(w: nat): (r: seq<MemByte>)
    ensures |r| == WORD_SIZE
  {
    seq(WORD_SIZE, k requires 0 <= k < WORD_SIZE => WordPart(w, k))
  }

  /** The object's fields in declaration order. */
  function ImageWords(img: Image): (r: seq<nat>)
    requires |img.firstPages| == LOCAL_SLOTS
    ensures |r| == 10
  {
    [img.next, img.usedCnt] + img.firstPages + [img.pageCnt, img.lip, img.currentPage, img.totalSz]
  }

  function WordsBytes(ws: seq<nat>): (r: seq<MemByte>)
    ensures |r| == |ws| * WORD_SIZE
  {
    if ws == [] then [] else WordsBytes(ws[..|ws| - 1]) + WordBytes(ws[|ws| - 1])
  }

  /** memcpy( prefix, this, sizeof( InternalMsg ) ) */
  function EncodeImage(img: Image): (r: seq<MemByte>)
    requires |img.firstPages| == LOCAL_SLOTS
    ensures |r| == IMAGE_SIZE
  {
    WordsBytes(ImageWords(img))
  }

  /** A machine word read back from memory. */
  function WordAt(bytes: seq<MemByte>, k: nat): nat
    requires (k + 1) * WORD_SIZE <= |bytes|
  {
    if bytes[k * WORD_SIZE].WordPart? then bytes[k * WORD_SIZE].word else 0
  }

  /** memcpy( this, ptr, sizeof( InternalMsg ) ) */
  function DecodeImage(bytes: seq<MemByte>): Image
    requires |bytes| >= IMAGE_SIZE
  {
    Image(WordAt(bytes, 0), WordAt(bytes, 1),
          [WordAt(bytes, 2), WordAt(bytes, 3), WordAt(bytes, 4), WordAt(bytes, 5)],
          WordAt(bytes, 6), WordAt(bytes, 7), WordAt(bytes, 8), WordAt(bytes, 9))
  }

  lemma {:induction false} WordsRoundTrip(ws: seq<nat>, k: nat)
    requires k < |ws|
    ensures WordAt(WordsBytes(ws), k) == ws[k]
  {
    if k < |ws| - 1 {
      var init := ws[..|ws| - 1];
      WordsRoundTrip(init, k);
      assert WordsBytes(ws)[k * WORD_SIZE] == WordsBytes(init)[k * WORD_SIZE];
    } else {
      assert WordsBytes(ws)[k * WORD_SIZE] == WordBytes(ws[k])[0];
    }
  }

  lemma ImageRoundTrip(img: Image)
    requires |img.firstPages| == LOCAL_SLOTS
    ensures DecodeImage(EncodeImage(img)) == img
  {
    var ws := ImageWords(img);
    forall k | 0 <= k < 10 ensures WordAt(EncodeImage(img), k) == ws[k] {
      WordsRoundTrip(ws, k);
    }
    assert ws[2..6] == img.firstPages;
  }

  // ----- rewriting the reserved prefix -----

  lemma {:induction false} FlatFirst(pages: map<Ptr, Page>, ps: seq<Ptr>)
    requires ps != []
    ensures Flat(pages, ps) == Cells(pages, ps[0]) + Flat(pages, ps[1..])
  {
    if |ps| > 1 {
      var init := ps[..|ps| - 1];
      FlatFirst(pages, init);
      assert init[1..] == ps[1..][..|ps| - 2];
    } else {
      assert ps[..0] == [] && ps[1..] == [];
    }
  }

  ghost predicate PrefixRewritten(s: Snap, s': Snap, off: nat, data: seq<MemByte>) {
    && s.payload != [] && IsPayload(s.pages, s.payload[0]) && off + |data| <= RESERVED
    && s' == s.(pages := s.pages[s.payload[0] := Payload(Overwrite(s.pages[s.payload[0]].cells, off, data))])
  }

  lemma PrefixRewriteStruct(s: Snap, s': Snap, off: nat, data: seq<MemByte>)
    requires Struct(s) && PrefixRewritten(s, s', off, data)
    ensures Struct(s')
  {
    forall i | 0 <= i < |s.payload| ensures IsPayload(s'.pages, s'.payload[i]) { assert IsPayload(s.pages, s.payload[i]); }
    forall c | 0 <= c < |s.chain| ensures IndexPageOk(s', c) {
      assert IndexPageOk(s, c) && s.chain[c] != s.payload[0] && UsedIn(s', c) == UsedIn(s, c);
    }
  }

  /** Bytes written into the reserved prefix change that prefix and nothing else:
      the message's contents survive, as does whatever part of the prefix was not hit. */
  lemma PrefixRewrite(s: Snap, s': Snap, off: nat, data: seq<MemByte>)
    requires WellFormed(s) && s.img.totalSz != 0 && PrefixRewritten(s, s', off, data)
    ensures WellFormed(s') && Contents(s') == Contents(s)
    ensures Stream(s') == Overwrite(Stream(s), off, data)
    ensures Cells(s'.pages, s'.payload[0])[..RESERVED] == Overwrite(Cells(s.pages, s.payload[0])[..RESERVED], off, data)
  {
    PrefixRewriteStruct(s, s', off, data);
    var rest := s.payload[1..];
    forall i | 0 <= i < |rest| ensures Cells(s.pages, rest[i]) == Cells(s'.pages, rest[i]) {
      assert s.payload[i + 1] != s.payload[0];
    }
    FlatFrame(s.pages, s'.pages, rest);
    FlatFirst(s.pages, s.payload);
    FlatFirst(s'.pages, s.payload);
    FlatLength(s.pages, s.payload);
    TakeOverwrite(s.pages[s.payload[0]].cells, Flat(s.pages, rest), s.img.totalSz, off, data);
  }

  lemma TakeOverwrite(cells: seq<MemByte>, rest: seq<MemByte>, n: nat, off: nat, data: seq<MemByte>)
    requires off + |data| <= RESERVED <= |cells| && RESERVED <= n <= |cells| + |rest|
    ensures (Overwrite(cells, off, data) + rest)[..n] == Overwrite((cells + rest)[..n], off, data)
    ensures (Overwrite(cells, off, data) + rest)[..n][RESERVED..] == (cells + rest)[..n][RESERVED..]
    ensures Overwrite(cells, off, data)[..RESERVED] == Overwrite(cells[..RESERVED], off, data)
  {
    hide Overwrite;
    var once, all := Overwrite(cells, off, data), (cells + rest)[..n];
    var a, b := (once + rest)[..n], Overwrite(all, off, data);
    forall k | 0 <= k < n ensures a[k] == b[k] && (k >= RESERVED ==> a[k] == all[k]) {
      OverwriteAt(all, off, data, k);
      if k < |cells| { OverwriteAt(cells, off, data, k); }
    }
    assert a[RESERVED..] == all[RESERVED..];
    var front := Overwrite(cells[..RESERVED], off, data);
    forall k | 0 <= k < RESERVED ensures once[..RESERVED][k] == front[k] {
      OverwriteAt(cells, off, data, k);
      OverwriteAt(cells[..RESERVED], off, data, k);
    }
  }

  /** `p` is what convertToPointer returned for the message described by `s`. */
  ghost predicate FoldedAt(s: Snap, p: Ptr) {
    && WellFormed(s) && s.img.totalSz != 0
    && p == s.payload[0] && IsPayload(s.pages, p)
    && Cells(s.pages, p)[..IMAGE_SIZE] == EncodeImage(s.img)
  }

  /** Folding: the image lands below the application area and the payload. */
  lemma FoldStep(s: Snap, s': Snap)
    requires WellFormed(s) && s.img.totalSz != 0 && PrefixRewritten(s, s', 0, EncodeImage(s.img))
    ensures FoldedAt(s', s.payload[0]) && Contents(s') == Contents(s) && AppArea(s') == AppArea(s)
  {
    PrefixRewrite(s, s', 0, EncodeImage(s.img));
    var cells, cells' := Cells(s.pages, s.payload[0]), Cells(s'.pages, s.payload[0]);
    assert IsPayload(s'.pages, s'.payload[0]);
    assert cells' == EncodeImage(s.img) + cells[IMAGE_SIZE..];
    assert cells'[IMAGE_SIZE..RESERVED] == cells[IMAGE_SIZE..RESERVED];
  }

  /** The image at the head of a folded message reads back as the object's fields. */
  lemma FoldedImage(s: Snap, p: Ptr)
    requires FoldedAt(s, p)
    ensures p in s.pages && s.pages[p].Payload? && |s.pages[p].cells| == PAGE_SIZE
    ensures DecodeImage(s.pages[p].cells[..IMAGE_SIZE]) == s.img
  {
    ImageRoundTrip(s.img);
  }

  /** What appWriteData does. The bytes go between the image and the payload; a message that
      already holds data keeps everything else, an empty one is left with a page its size
      does not account for. */
  ghost predicate AppWritten(s0: Snap, s: Snap, offset: nat, data: seq<MemByte>) {
    && offset + |data| <= APP_RESERVED
    && Struct(s) && |AppArea(s)| == APP_RESERVED && s.img.totalSz == s0.img.totalSz
    && AppArea(s)[offset..offset + |data|] == data
    && (WellFormed(s) <==> s0.img.totalSz != 0)
    && (s0.img.totalSz == 0 ==> s.img.usedCnt == s0.img.usedCnt + 1)
    && (s0.img.totalSz != 0 ==>
          && WellFormed(s0) && s == s0.(pages := s.pages) && Contents(s) == Contents(s0)
          && |AppArea(s0)| == APP_RESERVED && AppArea(s) == Overwrite(AppArea(s0), offset, data))
    && (forall p | p in s0.pages && p !in Owned(s0) :: p in s.pages && s.pages[p] == s0.pages[p])
    && (forall p | p in Owned(s) && p !in Owned(s0) :: p !in s0.pages)
    && s.pages.Keys == s0.pages.Keys + Owned(s)
  }

  /** `s1` is the message once it has a first page. */
  lemma AppWriteStep(s0: Snap, s1: Snap, s: Snap, offset: nat, data: seq<MemByte>)
    requires WellFormed(s0) && Evolves(s0, s1) && s1.payload != []
    requires s1.img.totalSz == s0.img.totalSz && (s0.img.totalSz != 0 ==> s1 == s0)
    requires s0.img.totalSz == 0 ==> |s1.payload| == 1
    requires offset + |data| <= APP_RESERVED && PrefixRewritten(s1, s, IMAGE_SIZE + offset, data)
    ensures AppWritten(s0, s, offset, data)
  {
    hide PagesOk, Evolves, Stream, Contents;
    if s0.img.totalSz == 0 { EvolvesBytes(s0, s1); }
    AppWriteFrame(s0, s1, s, offset, data);
    PrefixRewriteStruct(s1, s, IMAGE_SIZE + offset, data);
    if s0.img.totalSz != 0 {
      PrefixRewrite(s1, s, IMAGE_SIZE + offset, data);
    }
    MiddleOverwrite(Cells(s1.pages, s1.payload[0]), offset, data);
  }

  lemma AppWriteFrame(s0: Snap, s1: Snap, s: Snap, offset: nat, data: seq<MemByte>)
    requires Evolves(s0, s1) && s1.payload != [] && PrefixRewritten(s1, s, IMAGE_SIZE + offset, data)
    ensures forall p | p in s0.pages && p !in Owned(s0) :: p in s.pages && s.pages[p] == s0.pages[p]
    ensures forall p | p in Owned(s) && p !in Owned(s0) :: p !in s0.pages
    ensures s.pages.Keys == s0.pages.Keys + Owned(s) && |Cells(s1.pages, s1.payload[0])| == PAGE_SIZE
    ensures Struct(s1)
  {
    assert s1.payload[0] in Owned(s1);
    assert IsPayload(s1.pages, s1.payload[0]);
  }

  lemma MiddleOverwrite(cells: seq<MemByte>, offset: nat, data: seq<MemByte>)
    requires RESERVED <= |cells| && offset + |data| <= APP_RESERVED
    ensures Overwrite(cells, IMAGE_SIZE + offset, data)[IMAGE_SIZE..RESERVED]
         == Overwrite(cells[IMAGE_SIZE..RESERVED], offset, data)
    ensures Overwrite(cells[IMAGE_SIZE..RESERVED], offset, data)[offset..offset + |data|] == data
  {
    hide Overwrite;
    var area := cells[IMAGE_SIZE..RESERVED];
    var whole, r := Overwrite(cells, IMAGE_SIZE + offset, data), Overwrite(area, offset, data);
    forall k | 0 <= k < APP_RESERVED ensures whole[IMAGE_SIZE..RESERVED][k] == r[k] {
      OverwriteAt(cells, IMAGE_SIZE + offset, data, IMAGE_SIZE + k);
      OverwriteAt(area, offset, data, k);
    }
    forall k | 0 <= k < |data| ensures r[offset..offset + |data|][k] == data[k] {
      OverwriteAt(area, offset, data, offset + k);
    }
  }

  // ----- what an append copies from -----

  /** A buffer of the caller's, or bytes of a page reached through an iterator. The second
      kind is read again at every memcpy, so it can be the very page being filled. */
  datatype Source = Buffer(data: seq<MemByte>) | InPage(p: Ptr, off: nat)

  ghost predicate Readable(pages: map<Ptr, Page>, src: Source, sz: nat) {
    match src
    case Buffer(data) => sz <= |data|
    case InPage(p, off) => IsPayload(pages, p) && off + sz <= PAGE_SIZE
  }

  function Fetch(pages: map<Ptr, Page>, src: Source, from: nat, n: nat): (r: seq<MemByte>)
    requires src.Buffer? ==> from + n <= |src.data|
    requires src.InPage? ==> src.off + from + n <= |Cells(pages, src.p)|
    ensures |r| == n
  {
    match src
    case Buffer(data) => data[from..from + n]
    case InPage(p, off) => Cells(pages, p)[off + from..off + from + n]
  }

  /** The source lies outside the area an append to `s` writes. */
  ghost predicate Settled(s: Snap, src: Source, sz: nat) {
    && Readable(s.pages, src, sz)
    && (src.InPage? ==>
          forall pg | 0 <= pg < |s.payload| && s.payload[pg] == src.p ::
            pg * PAGE_SIZE + src.off + sz <= s.img.totalSz)
  }

  lemma SettledStays(s: Snap, s': Snap, src: Source, sz: nat)
    requires Evolves(s, s') && Settled(s, src, sz)
    ensures Settled(s', src, sz)
    ensures Fetch(s'.pages, src, 0, sz) == Fetch(s.pages, src, 0, sz)
  {
    if src.InPage? {
      assert s'.img.totalSz >= s.img.totalSz;
      if src.p in s.payload {
        var pg :| 0 <= pg < |s.payload| && s.payload[pg] == src.p;
        SettledInside(s, s', src, sz, pg);
      } else {
        SettledOutside(s, s', src, sz);
      }
    }
  }

  lemma SamePart<T>(f: seq<T>, f': seq<T>, a: nat, b: nat)
    requires f <= f' && a <= b <= |f|
    ensures f[a..b] == f'[a..b]
  {}

  lemma SettledInside(s: Snap, s': Snap, src: Source, sz: nat, pg: nat)
    requires Evolves(s, s') && Settled(s, src, sz) && src.InPage?
    requires pg < |s.payload| && s.payload[pg] == src.p
    ensures Settled(s', src, sz)
    ensures Fetch(s'.pages, src, 0, sz) == Fetch(s.pages, src, 0, sz)
  {
    hide PagesOk, HeaderOk, Evolves;
    EvolvesBytes(s, s');
    assert s'.payload[pg] == src.p;
    PageSlice(s, pg, src.off, sz);
    PageSlice(s', pg, src.off, sz);
    SamePart(Stream(s), Stream(s'), pg * PAGE_SIZE + src.off, pg * PAGE_SIZE + src.off + sz);
    forall q | 0 <= q < |s'.payload| && s'.payload[q] == src.p ensures q == pg { PayloadDistinct(s', q, pg); }
  }

  lemma SettledOutside(s: Snap, s': Snap, src: Source, sz: nat)
    requires Evolves(s, s') && Settled(s, src, sz) && src.InPage? && src.p !in s.payload
    ensures Settled(s', src, sz)
    ensures Fetch(s'.pages, src, 0, sz) == Fetch(s.pages, src, 0, sz)
  {
    forall c | 0 <= c < |s.chain| ensures s.chain[c] != src.p { assert IndexPageOk(s, c); }
    assert src.p !in Owned(s) && src.p in s.pages;
    assert src.p !in Owned(s');
    forall pg | 0 <= pg < |s'.payload| ensures s'.payload[pg] != src.p { assert s'.payload[pg] in Owned(s'); }
  }

  /** A part of a fetched run is a slice of the whole run. */
  lemma FetchPart(pages: map<Ptr, Page>, src: Source, from: nat, n: nat, sz: nat)
    requires Readable(pages, src, sz) && from + n <= sz
    ensures Fetch(pages, src, from, n) == Fetch(pages, src, 0, sz)[from..from + n]
  {
    var part, all := Fetch(pages, src, from, n), Fetch(pages, src, 0, sz);
    forall k | 0 <= k < n ensures part[k] == all[from + k] {}
  }

  lemma FetchSame(pages: map<Ptr, Page>, pages': map<Ptr, Page>, src: Source, from: nat, n: nat, sz: nat)
    requires Readable(pages, src, sz) && Readable(pages', src, sz) && from + n <= sz
    requires Fetch(pages, src, 0, sz) == Fetch(pages', src, 0, sz)
    ensures Fetch(pages, src, from, n) == Fetch(pages', src, from, n)
  {
    FetchPart(pages, src, from, n, sz);
    FetchPart(pages', src, from, n, sz);
  }
}
