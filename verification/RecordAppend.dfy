/** Appending records page by page: what every interruption leaves behind. */
module RecordAppend {
  import opened Arithmetic
  import opened RecordPages

  /**
   The image written for one page: the rows of the append that fall on it, over the old page image
   when the page existed and over zeros when it did not.
   */
  function AppendImage(was: Page, perPage: nat, p: nat, oldSize: nat, newRows: seq<Record>): (page: Page)
    requires perPage > 0 && |was| == perPage
    ensures |page| == perPage
  {
    seq(perPage, lane requires 0 <= lane < perPage && |was| == perPage =>
      var row := p * perPage + lane;
      if oldSize <= row < oldSize + |newRows| then newRows[row - oldSize] else was[lane])
  }

  /** Pages below `p` hold the old rows followed by the new ones as far as they reach. */
  ghost predicate AppendProgress(pages: seq<Page>, perPage: nat, oldRows: seq<Record>, newRows: seq<Record>, p: nat)
    requires perPage > 0
  {
    && Published(pages, perPage, oldRows)
    && p <= |pages|
    && (forall o :: 0 <= o < |oldRows| + |newRows| && o / perPage < p ==>
          SlotAt(pages, perPage, o) == Holds((oldRows + newRows)[o]))
  }

  lemma AppendImageLane(was: Page, perPage: nat, o: nat, oldSize: nat, newRows: seq<Record>)
    requires perPage > 0 && |was| == perPage
    ensures AppendImage(was, perPage, o / perPage, oldSize, newRows)[o % perPage]
         == if oldSize <= o < oldSize + |newRows| then newRows[o - oldSize] else was[o % perPage]
  {
    QuotientParts(o, perPage);
  }

  /** Writing one page of the append keeps every published row and extends the progress by that page. */
  lemma AppendStep(pages: seq<Page>, perPage: nat, oldRows: seq<Record>, newRows: seq<Record>, p: nat, was: Page)
    requires perPage > 0 && |was| == perPage
    requires AppendProgress(pages, perPage, oldRows, newRows, p)
    requires p < PageCount(|oldRows|, perPage) ==> was == pages[p]
    ensures AppendProgress(WritePage(pages, p, AppendImage(was, perPage, p, |oldRows|, newRows)),
                           perPage, oldRows, newRows, p + 1)
  {
    var image := AppendImage(was, perPage, p, |oldRows|, newRows);
    var next := WritePage(pages, p, image);
    forall o | 0 <= o < |oldRows| + |newRows| && o / perPage < p + 1
      ensures SlotAt(next, perPage, o) == Holds((oldRows + newRows)[o])
    {
      if o / perPage == p {
        AppendImageLane(was, perPage, o, |oldRows|, newRows);
        if o < |oldRows| { RowHasPage(pages, perPage, oldRows, o); RowPage(o, |oldRows|, perPage); }
      }
    }
    forall o | 0 <= o < |oldRows| ensures SlotAt(next, perPage, o) == Holds(oldRows[o]) {
      if o / perPage == p {
        assert (oldRows + newRows)[o] == oldRows[o];
      } else {
        assert SlotAt(pages, perPage, o) == Holds(oldRows[o]);
      }
    }
  }

  /** Starting at the page of the first new row nothing is missing below it. */
  lemma AppendStart(pages: seq<Page>, perPage: nat, oldRows: seq<Record>, newRows: seq<Record>)
    requires perPage > 0 && Published(pages, perPage, oldRows) && |pages| == PageCount(|oldRows|, perPage)
    ensures AppendProgress(pages, perPage, oldRows, newRows, |oldRows| / perPage)
  {
    PageCountBounds(|oldRows|, perPage);
    forall o | 0 <= o < |oldRows| + |newRows| && o / perPage < |oldRows| / perPage
      ensures SlotAt(pages, perPage, o) == Holds((oldRows + newRows)[o])
    {
      if |oldRows| <= o { QuotientMonotone(|oldRows|, o, perPage); }
      assert SlotAt(pages, perPage, o) == Holds(oldRows[o]);
    }
  }

  lemma AppendDone(pages: seq<Page>, perPage: nat, oldRows: seq<Record>, newRows: seq<Record>)
    requires perPage > 0
    requires AppendProgress(pages, perPage, oldRows, newRows, PageCount(|oldRows| + |newRows|, perPage))
    ensures ListFile(pages[..PageCount(|oldRows| + |newRows|, perPage)], perPage, oldRows + newRows)
  {
    var rows := oldRows + newRows;
    forall o | 0 <= o < |rows| ensures SlotAt(pages, perPage, o) == Holds(rows[o]) {
      RowPage(o, |rows|, perPage);
    }
    TruncateKeeps(pages, perPage, rows);
  }
}
