/** The heap that message pages are taken from (include/internal_msg.h, MallocPageProvider).

    A page is either a payload page, which is a run of PAGE_SIZE memory bytes, or
    an index page, which the code overlays with an IndexPageHeader and an array of
    page pointers. Freed pages leave the map, so a use after free or a second free
    is a precondition failure rather than a silent success. */
module PageMemory {
  const PAGE_SIZE: nat := 4096

  /** Entries that fit an index page behind its two-word header. */
  const MAX_ADDRESSED: nat := 510

  /** A header of two words and MAX_ADDRESSED words fit a page of 4096 bytes, and no more. */
  lemma IndexPageFits()
    ensures 16 + MAX_ADDRESSED * 8 <= 4096 < 16 + (MAX_ADDRESSED + 1) * 8
  {}

  type Ptr = nat
  const NULL: Ptr := 0

  /** One byte of memory: either plain data, or the k-th byte of a machine word
      (a pointer or a size) that was copied into the page byte by byte. */
  datatype MemByte = Octet(value: bv8) | WordPart(word: nat, k: nat)

  datatype Page =
    | Payload(cells: seq<MemByte>)
    | Index(next: Ptr, usedCnt: nat, entries: seq<Ptr>)

  /** The bytes of a payload page; empty for anything that is not a live payload page. */
  function Cells(pages: map<Ptr, Page>, p: Ptr): seq<MemByte> {
    if p in pages && pages[p].Payload? then pages[p].cells else []
  }

  ghost predicate IsPayload(pages: map<Ptr, Page>, p: Ptr) {
    p in pages && pages[p].Payload? && |pages[p].cells| == PAGE_SIZE
  }

  /** What memcpy leaves in a byte run. */
  function Overwrite(cells: seq<MemByte>, off: nat, data: seq<MemByte>): (r: seq<MemByte>)
    requires off + |data| <= |cells|
    ensures |r| == |cells|
  {
    cells[..off] + data + cells[off + |data|..]
  }

  lemma OverwriteAt(cells: seq<MemByte>, off: nat, data: seq<MemByte>, k: nat)
    requires off + |data| <= |cells| && k < |cells|
    ensures Overwrite(cells, off, data)[k] == if off <= k < off + |data| then data[k - off] else cells[k]
  {}

  lemma {:induction false} FreshPtrExists(taken: set<Ptr>) returns (p: Ptr)
    ensures p != NULL && forall q | q in taken :: q < p
  {
    if taken == {} {
      p := 1;
    } else {
      var q :| q in taken;
      var r := FreshPtrExists(taken - {q});
      p := if q < r then r else q + 1;
      assert forall x | x in taken :: x == q || x in taken - {q};
    }
  }

  class Memory {
    var pages: map<Ptr, Page>

    constructor ()
      ensures pages == map[]
    {
      pages := map[];
    }

    /** malloc(pageSize): a non-null address that is not live, with arbitrary contents. */
    method Acquire() returns (p: Ptr)
      modifies this
      ensures p != NULL && p !in old(pages)
      ensures IsPayload(pages, p)
      ensures pages == old(pages)[p := pages[p]]
    {
      ghost var bound := FreshPtrExists(pages.Keys);
      assert bound !in pages.Keys;
      p :| p != NULL && p !in pages;
      ghost var zeros := seq(PAGE_SIZE, _ => Octet(0));
      assert |zeros| == PAGE_SIZE;
      var junk: seq<MemByte> :| |junk| == PAGE_SIZE;
      pages := pages[p := Payload(junk)];
    }

    /** free(page). */
    method Release(p: Ptr)
      requires p in pages
      modifies this
      ensures pages == old(pages) - {p}
    {
      pages := pages - {p};
    }

    /** memcpy into a payload page. */
    method Store(p: Ptr, off: nat, data: seq<MemByte>)
      requires IsPayload(pages, p) && off + |data| <= PAGE_SIZE
      modifies this
      ensures pages == old(pages)[p := Payload(Overwrite(old(pages[p].cells), off, data))]
    {
      pages := pages[p := Payload(Overwrite(pages[p].cells, off, data))];
    }

    /** IndexPageHeader::init(page): the page becomes an index page with one entry. */
    method InitIndex(p: Ptr, first: Ptr)
      requires p in pages
      modifies this
      ensures pages == old(pages)[p := Index(NULL, 1, seq(MAX_ADDRESSED, _ => NULL)[0 := first])]
    {
      pages := pages[p := Index(NULL, 1, seq(MAX_ADDRESSED, _ => NULL)[0 := first])];
    }

    method SetNext(p: Ptr, next: Ptr)
      requires p in pages && pages[p].Index?
      modifies this
      ensures pages == old(pages)[p := old(pages[p]).(next := next)]
    {
      pages := pages[p := pages[p].(next := next)];
    }

    /** pages()[usedCnt] = page; ++usedCnt. */
    method PushEntry(p: Ptr, entry: Ptr)
      requires p in pages && pages[p].Index? && pages[p].usedCnt < |pages[p].entries|
      modifies this
      ensures pages == old(pages)[p := Index(old(pages[p].next), old(pages[p].usedCnt) + 1,
                                             old(pages[p].entries)[old(pages[p].usedCnt) := entry])]
    {
      var ip := pages[p];
      pages := pages[p := Index(ip.next, ip.usedCnt + 1, ip.entries[ip.usedCnt := entry])];
    }
  }
}
