/** The paged Logical-ID directory as a value: what a batch of updates does to every entry. */
module DirectoryPages {
  import opened Arithmetic

  const NO_LOCATION: nat := 0xffff_ffff

  datatype DiskLocation = DiskLocation(listNo: nat, offset: nat) {
    predicate Active() {
      listNo != NO_LOCATION && offset != NO_LOCATION
    }
  }

  const TOMBSTONE := DiskLocation(NO_LOCATION, NO_LOCATION)

  /** What unwritten bytes inside a file read as. */
  const ZERO := DiskLocation(0, 0)

  type DirectoryPage = seq<DiskLocation>
  type Update = (nat, DiskLocation)

  datatype Entry = Absent | Present(location: DiskLocation)

  function EntryAt(pages: seq<DirectoryPage>, perPage: nat, id: nat): Entry
    requires perPage > 0
  {
    var p, lane := id / perPage, id % perPage;
    if p < |pages| && lane < |pages[p]| then Present(pages[p][lane]) else Absent
  }

  function Filled(perPage: nat, location: DiskLocation): (page: DirectoryPage)
    ensures |page| == perPage
  {
    seq(perPage, _ => location)
  }

  /** A positioned write: inside the file it replaces a page, beyond the end it leaves a hole of zero bytes. */
  function WritePage(pages: seq<DirectoryPage>, perPage: nat, p: nat, page: DirectoryPage): (r: seq<DirectoryPage>)
    ensures |r| == if p < |pages| then |pages| else p + 1
  {
    if p < |pages| then pages[p := page]
    else pages + seq(p - |pages|, _ => Filled(perPage, ZERO)) + [page]
  }

  // ---------------------------------------------------------------- a batch of updates

  /** The last update of an ID, if any. */
  function Latest(updates: seq<Update>, id: nat): Entry {
    if updates == [] then Absent
    else if updates[|updates| - 1].0 == id then Present(updates[|updates| - 1].1)
    else Latest(updates[..|updates| - 1], id)
  }

  predicate Touches(updates: seq<Update>, perPage: nat, p: nat)
    requires perPage > 0
  {
    exists i :: 0 <= i < |updates| && updates[i].0 / perPage == p
  }

  function LengthAfter(length: nat, updates: seq<Update>, perPage: nat): (r: nat)
    requires perPage > 0
    ensures r >= length
  {
    if updates == [] then length else
      var rest, needed := LengthAfter(length, updates[..|updates| - 1], perPage), updates[|updates| - 1].0 / perPage + 1;
      if rest < needed then needed else rest
  }

  /** Every entry after the batch. A page first reached by an update is tombstones; a skipped page is zero bytes. */
  function WrittenEntry(pages: seq<DirectoryPage>, perPage: nat, updates: seq<Update>, id: nat): Entry
    requires perPage > 0
  {
    var p := id / perPage;
    if Latest(updates, id).Present? then Latest(updates, id)
    else if p < |pages| then EntryAt(pages, perPage, id)
    else if p >= LengthAfter(|pages|, updates, perPage) then Absent
    else if Touches(updates, perPage, p) then Present(TOMBSTONE)
    else Present(ZERO)
  }

  ghost predicate DistinctKeys(updates: seq<Update>) {
    forall i, j :: 0 <= i < j < |updates| ==> updates[i].0 != updates[j].0
  }

  lemma {:induction false} LatestOf(updates: seq<Update>, i: nat)
    requires DistinctKeys(updates) && i < |updates|
    ensures Latest(updates, updates[i].0) == Present(updates[i].1)
  {
    if i < |updates| - 1 {
      assert updates[i].0 != updates[|updates| - 1].0;
      LatestOf(updates[..|updates| - 1], i);
    }
  }

  lemma {:induction false} LatestFrom(updates: seq<Update>, id: nat)
    ensures Latest(updates, id).Present? ==> (id, Latest(updates, id).location) in updates
    ensures Latest(updates, id).Absent? ==> forall u :: u in updates ==> u.0 != id
  {
    if updates != [] {
      LatestFrom(updates[..|updates| - 1], id);
      assert updates == updates[..|updates| - 1] + [updates[|updates| - 1]];
    }
  }

  /** The order of a batch of distinct IDs does not matter. */
  lemma LatestPermuted(a: seq<Update>, b: seq<Update>, id: nat)
    requires multiset(a) == multiset(b) && DistinctKeys(a) && DistinctKeys(b)
    ensures Latest(a, id) == Latest(b, id)
  {
    LatestFrom(a, id);
    LatestFrom(b, id);
    forall u ensures u in a <==> u in b { assert u in multiset(a) <==> u in multiset(b); }
    if Latest(a, id).Present? {
      var u := (id, Latest(a, id).location);
      var j :| 0 <= j < |b| && b[j] == u;
      LatestOf(b, j);
    }
  }

  lemma PresentTouches(updates: seq<Update>, perPage: nat, id: nat)
    requires perPage > 0
    ensures Latest(updates, id).Present? ==> Touches(updates, perPage, id / perPage)
  {
    LatestFrom(updates, id);
    if Latest(updates, id).Present? {
      var i :| 0 <= i < |updates| && updates[i] == (id, Latest(updates, id).location);
    }
  }

  /** No page between the old end and the new one is skipped. */
  ghost predicate NoGap(pages: seq<DirectoryPage>, perPage: nat, updates: seq<Update>)
    requires perPage > 0
  {
    forall p :: |pages| <= p < LengthAfter(|pages|, updates, perPage) ==> Touches(updates, perPage, p)
  }

  /**
   Entries that were never assigned read as tombstones or are absent exactly when no page was skipped;
   over a skipped page they read as an active location, row 0 of list 0.
   */
  lemma GapsExposeZeros(pages: seq<DirectoryPage>, perPage: nat, updates: seq<Update>)
    requires perPage > 0
    ensures NoGap(pages, perPage, updates) <==>
      (forall id: nat :: Latest(updates, id).Absent? && id / perPage >= |pages| ==>
         WrittenEntry(pages, perPage, updates, id) in {Absent, Present(TOMBSTONE)})
    ensures ZERO.Active()
  {
    if !NoGap(pages, perPage, updates) {
      var p :| |pages| <= p < LengthAfter(|pages|, updates, perPage) && !Touches(updates, perPage, p);
      var id := p * perPage;
      QuotientOf(p, 0, perPage);
      PresentTouches(updates, perPage, id);
      assert WrittenEntry(pages, perPage, updates, id) == Present(ZERO);
    }
  }

  /** An input that shows it: a first update on page 1 leaves all of page 0 reading as active rows. */
  lemma SkippedPageReadsActive(perPage: nat, location: DiskLocation, id: nat)
    requires id < perPage
    ensures var updates := [(perPage, location)];
      && !NoGap([], perPage, updates) && Latest(updates, id).Absent?
      && WrittenEntry([], perPage, updates, id) == Present(DiskLocation(0, 0)) && DiskLocation(0, 0).Active()
  {
    var updates := [(perPage, location)];
    assert updates[..0] == [];
    QuotientOf(1, 0, perPage);
    QuotientOf(0, id, perPage);
    assert LengthAfter(0, updates, perPage) == 2 && !Touches(updates, perPage, 0);
  }

  // ---------------------------------------------------------------- one page of a sorted batch

  function GroupImage(page: DirectoryPage, perPage: nat, group: seq<Update>): (image: DirectoryPage)
    requires perPage > 0 && |page| == perPage
    ensures |image| == perPage
  {
    if group == [] then page
    else GroupImage(page, perPage, group[..|group| - 1])[group[|group| - 1].0 % perPage := group[|group| - 1].1]
  }

  lemma {:induction false} GroupImageEntry(page: DirectoryPage, perPage: nat, group: seq<Update>, p: nat, id: nat)
    requires perPage > 0 && |page| == perPage && id / perPage == p
    requires forall i :: 0 <= i < |group| ==> group[i].0 / perPage == p
    ensures Present(GroupImage(page, perPage, group)[id % perPage])
         == if Latest(group, id).Present? then Latest(group, id) else Present(page[id % perPage])
  {
    if group != [] {
      GroupImageEntry(page, perPage, group[..|group| - 1], p, id);
      var last := group[|group| - 1].0;
      if last % perPage == id % perPage {
        QuotientInjective(last, id, perPage);
      }
    }
  }

  lemma {:induction false} LatestConcat(a: seq<Update>, b: seq<Update>, id: nat)
    ensures Latest(a + b, id) == if Latest(b, id).Present? then Latest(b, id) else Latest(a, id)
  {
    if b == [] {
      assert a + b == a;
    } else {
      assert (a + b)[..|a + b| - 1] == a + b[..|b| - 1];
      LatestConcat(a, b[..|b| - 1], id);
    }
  }

  lemma {:induction false} LengthConcat(length: nat, a: seq<Update>, b: seq<Update>, perPage: nat, p: nat)
    requires perPage > 0 && forall i :: 0 <= i < |b| ==> b[i].0 / perPage == p
    ensures LengthAfter(length, a + b, perPage)
         == var n := LengthAfter(length, a, perPage); if b == [] || p < n then n else p + 1
  {
    if b == [] {
      assert a + b == a;
    } else {
      assert (a + b)[..|a + b| - 1] == a + b[..|b| - 1];
      LengthConcat(length, a, b[..|b| - 1], perPage, p);
    }
  }

  lemma TouchesConcat(a: seq<Update>, b: seq<Update>, perPage: nat, p: nat, q: nat)
    requires perPage > 0 && b != [] && forall i :: 0 <= i < |b| ==> b[i].0 / perPage == p
    ensures Touches(a + b, perPage, q) <==> Touches(a, perPage, q) || q == p
  {
    if Touches(a, perPage, q) {
      var i :| 0 <= i < |a| && a[i].0 / perPage == q;
      assert (a + b)[i].0 / perPage == q;
    }
    assert (a + b)[|a|].0 / perPage == p;
    if Touches(a + b, perPage, q) {
      var i :| 0 <= i < |a + b| && (a + b)[i].0 / perPage == q;
      if i >= |a| { assert b[i - |a|].0 / perPage == p; }
    }
  }

  /** `pages` holds the effect of the batch `done` on the original file. */
  ghost predicate Reflects(pages: seq<DirectoryPage>, original: seq<DirectoryPage>, perPage: nat, done: seq<Update>)
    requires perPage > 0
  {
    && Uniform(pages, perPage)
    && |pages| == LengthAfter(|original|, done, perPage)
    && (forall id: nat :: EntryAt(pages, perPage, id) == WrittenEntry(original, perPage, done, id))
  }

  /** The page a group starts from: the file's, or tombstones beyond its end. */
  function GroupBase(pages: seq<DirectoryPage>, perPage: nat, p: nat): DirectoryPage {
    if p < |pages| then pages[p] else Filled(perPage, TOMBSTONE)
  }

  lemma WrittenPageEntry(pages: seq<DirectoryPage>, perPage: nat, p: nat, image: DirectoryPage, id: nat)
    requires perPage > 0 && Uniform(pages, perPage) && |image| == perPage
    ensures Uniform(WritePage(pages, perPage, p, image), perPage)
    ensures EntryAt(WritePage(pages, perPage, p, image), perPage, id)
         == if id / perPage == p then Present(image[id % perPage])
            else if id / perPage < |pages| || p < id / perPage then EntryAt(pages, perPage, id)
            else Present(ZERO)
  {
    QuotientParts(id, perPage);
  }

  /** A group of updates to page `p`, which comes after every page the batch has reached so far. */
  ghost predicate NextGroup(pages: seq<DirectoryPage>, original: seq<DirectoryPage>, perPage: nat, done: seq<Update>,
                            group: seq<Update>, p: nat)
    requires perPage > 0
  {
    && Reflects(pages, original, perPage, done)
    && group != [] && (forall i :: 0 <= i < |group| ==> group[i].0 / perPage == p)
    && !Touches(done, perPage, p)
    && (|pages| == |original| || |pages| <= p)
  }

  function GroupPage(pages: seq<DirectoryPage>, perPage: nat, p: nat, group: seq<Update>): (image: DirectoryPage)
    requires perPage > 0 && |GroupBase(pages, perPage, p)| == perPage
    ensures |image| == perPage
  {
    GroupImage(GroupBase(pages, perPage, p), perPage, group)
  }

  lemma GroupSamePage(pages: seq<DirectoryPage>, original: seq<DirectoryPage>, perPage: nat, done: seq<Update>,
                      group: seq<Update>, p: nat, id: nat)
    requires perPage > 0 && NextGroup(pages, original, perPage, done, group, p) && id / perPage == p
    ensures |GroupBase(pages, perPage, p)| == perPage
    ensures Present(GroupPage(pages, perPage, p, group)[id % perPage])
         == WrittenEntry(original, perPage, done + group, id)
  {
    GroupImageEntry(GroupBase(pages, perPage, p), perPage, group, p, id);
    LatestConcat(done, group, id);
    LengthConcat(|original|, done, group, perPage, p);
    TouchesConcat(done, group, perPage, p, p);
    PresentTouches(done, perPage, id);
    assert EntryAt(pages, perPage, id) == WrittenEntry(original, perPage, done, id);
  }

  lemma GroupOtherPage(pages: seq<DirectoryPage>, original: seq<DirectoryPage>, perPage: nat, done: seq<Update>,
                       group: seq<Update>, p: nat, id: nat)
    requires perPage > 0 && NextGroup(pages, original, perPage, done, group, p) && id / perPage != p
    ensures (if id / perPage < |pages| || p < id / perPage then EntryAt(pages, perPage, id) else Present(ZERO))
         == WrittenEntry(original, perPage, done + group, id)
  {
    var q := id / perPage;
    GroupMisses(group, perPage, p, id);
    LatestConcat(done, group, id);
    LengthConcat(|original|, done, group, perPage, p);
    TouchesConcat(done, group, perPage, p, q);
    PresentTouches(done, perPage, id);
    TouchedWithin(|original|, done, perPage, q);
    assert EntryAt(pages, perPage, id) == WrittenEntry(original, perPage, done, id);
    if q >= |pages| {
      assert !Touches(done, perPage, q) && Latest(done, id).Absent?;
    }
  }

  lemma {:induction false} GroupMisses(group: seq<Update>, perPage: nat, p: nat, id: nat)
    requires perPage > 0 && id / perPage != p && forall i :: 0 <= i < |group| ==> group[i].0 / perPage == p
    ensures Latest(group, id).Absent?
  {
    if group != [] {
      GroupMisses(group[..|group| - 1], perPage, p, id);
    }
  }

  lemma {:induction false} TouchedWithin(length: nat, updates: seq<Update>, perPage: nat, p: nat)
    requires perPage > 0
    ensures Touches(updates, perPage, p) ==> p < LengthAfter(length, updates, perPage)
  {
    if Touches(updates, perPage, p) {
      var i :| 0 <= i < |updates| && updates[i].0 / perPage == p;
      if i < |updates| - 1 {
        assert updates[..|updates| - 1][i].0 / perPage == p;
        TouchedWithin(length, updates[..|updates| - 1], perPage, p);
      }
    }
  }

  /** Rewriting one page with its group of updates extends the batch by that group. */
  lemma GroupStep(pages: seq<DirectoryPage>, original: seq<DirectoryPage>, perPage: nat, done: seq<Update>,
                  group: seq<Update>, p: nat)
    requires perPage > 0 && NextGroup(pages, original, perPage, done, group, p)
    ensures |GroupBase(pages, perPage, p)| == perPage
    ensures Reflects(WritePage(pages, perPage, p, GroupPage(pages, perPage, p, group)), original, perPage, done + group)
  {
    var image := GroupPage(pages, perPage, p, group);
    var next := WritePage(pages, perPage, p, image);
    LengthConcat(|original|, done, group, perPage, p);
    WrittenPageEntry(pages, perPage, p, image, 0);
    forall id: nat ensures EntryAt(next, perPage, id) == WrittenEntry(original, perPage, done + group, id) {
      WrittenPageEntry(pages, perPage, p, image, id);
      if id / perPage == p {
        GroupSamePage(pages, original, perPage, done, group, p, id);
      } else {
        GroupOtherPage(pages, original, perPage, done, group, p, id);
      }
    }
  }
}
