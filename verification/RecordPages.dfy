/** A headerless list file as a sequence of pages, and what single page writes do to its record slots. */
module RecordPages {
  import opened Arithmetic

  type Payload = seq<bv8>

  datatype Record = Record(id: nat, payload: Payload)

  /** A page is its record lanes; the unused bytes at its end are not represented. */
  type Page = seq<Record>

  datatype Slot = NoSlot | Holds(record: Record)

  /** What the file holds at a list-local offset. */
  function SlotAt(pages: seq<Page>, perPage: nat, offset: nat): Slot
    requires perPage > 0
  {
    LaneAt(pages, offset / perPage, offset % perPage)
  }

  function LaneAt(pages: seq<Page>, page: nat, lane: nat): Slot {
    if page < |pages| && lane < |pages[page]| then Holds(pages[page][lane]) else NoSlot
  }

  /** The bytes a memset leaves behind. */
  function BlankPage(perPage: nat, blank: Record): (page: Page)
    ensures |page| == perPage
  {
    seq(perPage, _ => blank)
  }

  /** Writing a page at the end of the file or inside it. */
  function WritePage(pages: seq<Page>, p: nat, page: Page): (r: seq<Page>)
    requires p <= |pages|
    ensures |r| == if p < |pages| then |pages| else |pages| + 1
  {
    if p < |pages| then pages[p := page] else pages + [page]
  }

  /** The first `count` records of the file. */
  ghost predicate Stores(pages: seq<Page>, perPage: nat, rows: seq<Record>)
    requires perPage > 0
  {
    forall o :: 0 <= o < |rows| ==> SlotAt(pages, perPage, o) == Holds(rows[o])
  }

  /** A complete list file: exactly the pages its records need. */
  ghost predicate ListFile(pages: seq<Page>, perPage: nat, rows: seq<Record>)
    requires perPage > 0
  {
    && Uniform(pages, perPage)
    && |pages| == PageCount(|rows|, perPage)
    && Stores(pages, perPage, rows)
  }

  /** A list file that may carry unpublished pages or lanes behind its records. */
  ghost predicate Published(pages: seq<Page>, perPage: nat, rows: seq<Record>)
    requires perPage > 0
  {
    && Uniform(pages, perPage)
    && |pages| >= PageCount(|rows|, perPage)
    && Stores(pages, perPage, rows)
  }

  lemma RowHasPage(pages: seq<Page>, perPage: nat, rows: seq<Record>, o: nat)
    requires perPage > 0 && Published(pages, perPage, rows) && o < |rows|
    ensures o / perPage < |pages| && o % perPage < |pages[o / perPage]|
    ensures pages[o / perPage][o % perPage] == rows[o]
  {
    RowPage(o, |rows|, perPage);
    assert SlotAt(pages, perPage, o) == Holds(rows[o]);
  }

  /** Cutting a file at the pages its records need keeps the records. */
  lemma TruncateKeeps(pages: seq<Page>, perPage: nat, rows: seq<Record>)
    requires perPage > 0 && Published(pages, perPage, rows)
    ensures ListFile(pages[..PageCount(|rows|, perPage)], perPage, rows)
  {
    var cut := pages[..PageCount(|rows|, perPage)];
    forall o | 0 <= o < |rows| ensures SlotAt(cut, perPage, o) == Holds(rows[o]) {
      RowHasPage(pages, perPage, rows, o);
      RowPage(o, |rows|, perPage);
    }
  }

  lemma PublishedPrefix(pages: seq<Page>, perPage: nat, rows: seq<Record>, n: nat)
    requires perPage > 0 && Published(pages, perPage, rows) && n <= |rows|
    ensures Published(pages, perPage, rows[..n])
  {
    PageCountMonotone(n, |rows|, perPage);
  }
}
