/** The external location directory: page-batched reads and read-modify-writes (adapters/external_location_directory.cpp). */
module LocationDirectory {
  import opened Arithmetic
  import opened Sorting
  import opened DirectoryPages
  import opened Outcomes

  datatype Request = Request(page: nat, id: nat, inputIndex: nat)

  predicate RequestLess(a: Request, b: Request) {
    a.page < b.page || (a.page == b.page && a.id < b.id)
  }

  predicate UpdateLess(a: Update, b: Update) {
    a.0 < b.0
  }

  /** The ID's entry, in its page and lane, is this location. */
  ghost predicate EntryIs(pages: seq<DirectoryPage>, perPage: nat, id: nat, at: DiskLocation)
    requires perPage > 0
  {
    id / perPage < |pages| && id % perPage < |pages[id / perPage]| && pages[id / perPage][id % perPage] == at
  }

  ghost predicate Untouched(updates: seq<Update>, id: nat) {
    forall u :: u in updates ==> u.0 != id
  }

  lemma PresentIs(pages: seq<DirectoryPage>, perPage: nat, id: nat, at: DiskLocation)
    requires perPage > 0
    ensures EntryAt(pages, perPage, id) == Present(at) <==> EntryIs(pages, perPage, id, at)
  {
  }

  /** Updated entries are as written, existing others as before. */
  lemma EntriesWritten(pages: seq<DirectoryPage>, original: seq<DirectoryPage>, perPage: nat, updates: seq<Update>)
    requires perPage > 0 && DistinctKeys(updates) && Reflects(pages, original, perPage, updates)
    ensures forall u :: u in updates ==> EntryIs(pages, perPage, u.0, u.1)
    ensures forall id: nat, at :: EntryIs(original, perPage, id, at) && Untouched(updates, id) ==> EntryIs(pages, perPage, id, at)
  {
    forall u | u in updates ensures EntryIs(pages, perPage, u.0, u.1) {
      var i :| 0 <= i < |updates| && updates[i] == u;
      LatestOf(updates, i);
      assert EntryAt(pages, perPage, u.0) == WrittenEntry(original, perPage, updates, u.0);
      PresentIs(pages, perPage, u.0, u.1);
    }
    forall id: nat, at | EntryIs(original, perPage, id, at) && Untouched(updates, id) ensures EntryIs(pages, perPage, id, at) {
      LatestFrom(updates, id);
      assert EntryAt(pages, perPage, id) == WrittenEntry(original, perPage, updates, id);
      PresentIs(original, perPage, id, at);
      PresentIs(pages, perPage, id, at);
    }
  }

  class ExternalLocationDirectory {
    const perPage: nat
    var pages: seq<DirectoryPage>

    ghost predicate Valid()
      reads this
    {
      perPage > 0 && Uniform(pages, perPage)
    }

    ghost function Lookup(id: nat): Entry
      requires Valid()
      reads this
    {
      EntryAt(pages, perPage, id)
    }

    constructor (perPage: nat)
      requires perPage > 0
      ensures Valid() && pages == [] && this.perPage == perPage
    {
      this.perPage := perPage;
      pages := [];
    }

    /** One request per input, ordered by page. */
    method OrderedRequests(ids: seq<nat>) returns (requests: seq<Request>)
      requires Valid()
      ensures OfInputs(requests, ids)
      ensures forall i :: 0 <= i < |ids| ==> Request(ids[i] / perPage, ids[i], i) in requests
      ensures forall i, j :: 0 <= i < j < |requests| ==> requests[i].page <= requests[j].page
    {
      requests := [];
      for i := 0 to |ids|
        invariant |requests| == i
        invariant forall j :: 0 <= j < i ==> requests[j] == Request(ids[j] / perPage, ids[j], j)
      {
        requests := requests + [Request(ids[i] / perPage, ids[i], i)];
      }
      ghost var unsorted := requests;
      requests := Sort(RequestLess, requests);
      SortSorted(RequestLess, unsorted);
      forall k | 0 <= k < |requests| ensures OfInput(requests[k], ids) {
        assert requests[k] in requests;
        SortMembers(RequestLess, unsorted, requests[k]);
      }
      forall i | 0 <= i < |ids| ensures Request(ids[i] / perPage, ids[i], i) in requests {
        assert unsorted[i] in unsorted;
        SortMembers(RequestLess, unsorted, unsorted[i]);
      }
    }

    ghost predicate OfInput(q: Request, ids: seq<nat>)
      requires perPage > 0
    {
      q.inputIndex < |ids| && q.id == ids[q.inputIndex] && q.page == q.id / perPage
    }

    ghost predicate OfInputs(requests: seq<Request>, ids: seq<nat>)
      requires perPage > 0
    {
      forall k :: 0 <= k < |requests| ==> OfInput(requests[k], ids)
    }

    /** Locations in input order; an ID beyond the file is refused. Every page is read at most once, in ascending order. */
    method ReadBatch(ids: seq<nat>) returns (r: Result<seq<DiskLocation>>, ghost pagesRead: seq<nat>)
      requires Valid()
      ensures r.Ok? <==> forall i :: 0 <= i < |ids| ==> Lookup(ids[i]).Present?
      ensures r.Err? ==> r.error == OutOfRange
      ensures r.Ok? ==> |r.value| == |ids| && forall i :: 0 <= i < |ids| ==> Lookup(ids[i]) == Present(r.value[i])
      ensures r.Ok? ==> forall i :: 0 <= i < |ids| ==> EntryIs(pages, perPage, ids[i], r.value[i])
      ensures forall i, j :: 0 <= i < j < |pagesRead| ==> pagesRead[i] < pagesRead[j]
      ensures r.Ok? ==> forall p: nat :: p in pagesRead <==> exists i :: 0 <= i < |ids| && ids[i] / perPage == p
    {
      pagesRead := [];
      var requests := OrderedRequests(ids);
      var result := seq(|ids|, _ => TOMBSTONE);
      var begin := 0;
      while begin < |requests|
        invariant begin <= |requests| && |result| == |ids|
        invariant forall k :: 0 <= k < begin ==> Served(requests[k], result)
        invariant forall i, j :: 0 <= i < j < |pagesRead| ==> pagesRead[i] < pagesRead[j]
        invariant forall i, k :: 0 <= i < |pagesRead| && begin <= k < |requests| ==> pagesRead[i] < requests[k].page
        invariant PagesOf(pagesRead, requests, begin)
      {
        var end := GroupEnd(requests, begin);
        if requests[begin].page >= |pages| {
          assert OfInput(requests[begin], ids);
          return Err(OutOfRange), pagesRead;
        }
        PagesNext(pagesRead, requests, begin, end);
        pagesRead := pagesRead + [requests[begin].page];
        result := ServePage(requests, begin, end, result, ids);
        begin := end;
      }
      forall i | 0 <= i < |ids| ensures Lookup(ids[i]) == Present(result[i]) && EntryIs(pages, perPage, ids[i], result[i]) {
        var k :| 0 <= k < |requests| && requests[k] == Request(ids[i] / perPage, ids[i], i);
        assert Served(requests[k], result);
      }
      forall p: nat ensures p in pagesRead <==> exists i :: 0 <= i < |ids| && ids[i] / perPage == p {
        InputPages(requests, ids, p);
      }
      return Ok(result), pagesRead;
    }

    /** The pages of the requests below `end`. */
    ghost predicate PagesOf(pagesRead: seq<nat>, requests: seq<Request>, end: nat) {
      forall p: nat :: p in pagesRead <==> exists k :: 0 <= k < end && k < |requests| && requests[k].page == p
    }

    lemma PagesNext(pagesRead: seq<nat>, requests: seq<Request>, begin: nat, end: nat)
      requires begin < end <= |requests| && PagesOf(pagesRead, requests, begin)
      requires forall k :: begin <= k < end ==> requests[k].page == requests[begin].page
      ensures PagesOf(pagesRead + [requests[begin].page], requests, end)
    {
      forall p: nat ensures p in pagesRead + [requests[begin].page] <==> exists k :: 0 <= k < end && k < |requests| && requests[k].page == p {
        if p in pagesRead {
          var k :| 0 <= k < begin && k < |requests| && requests[k].page == p;
        }
      }
    }

    lemma InputPages(requests: seq<Request>, ids: seq<nat>, p: nat)
      requires perPage > 0 && OfInputs(requests, ids)
      requires forall i :: 0 <= i < |ids| ==> Request(ids[i] / perPage, ids[i], i) in requests
      ensures (exists k :: 0 <= k < |requests| && requests[k].page == p) <==> exists i :: 0 <= i < |ids| && ids[i] / perPage == p
    {
      if k :| 0 <= k < |requests| && requests[k].page == p {
        assert OfInput(requests[k], ids);
      }
      if i :| 0 <= i < |ids| && ids[i] / perPage == p {
        var k :| 0 <= k < |requests| && requests[k] == Request(ids[i] / perPage, ids[i], i);
        assert requests[k].page == p;
      }
    }

    method GroupEnd(requests: seq<Request>, begin: nat) returns (end: nat)
      requires begin < |requests|
      requires forall i, j :: 0 <= i < j < |requests| ==> requests[i].page <= requests[j].page
      ensures begin < end <= |requests|
      ensures forall k :: begin <= k < end ==> requests[k].page == requests[begin].page
      ensures forall k :: end <= k < |requests| ==> requests[begin].page < requests[k].page
    {
      end := begin + 1;
      while end < |requests| && requests[end].page == requests[begin].page
        invariant begin < end <= |requests|
        invariant forall k :: begin <= k < end ==> requests[k].page == requests[begin].page
      {
        end := end + 1;
      }
    }

    ghost predicate Served(q: Request, result: seq<DiskLocation>)
      requires Valid()
      reads this
    {
      q.inputIndex < |result| && Lookup(q.id) == Present(result[q.inputIndex])
    }

    /** Copies the requested entries of one page to their input positions. */
    method ServePage(requests: seq<Request>, begin: nat, end: nat, before: seq<DiskLocation>, ghost ids: seq<nat>)
      returns (result: seq<DiskLocation>)
      requires Valid() && begin < end <= |requests| && requests[begin].page < |pages| && |before| == |ids|
      requires forall k :: begin <= k < end ==> requests[k].page == requests[begin].page
      requires OfInputs(requests, ids)
      requires forall k :: 0 <= k < begin ==> Served(requests[k], before)
      ensures |result| == |before|
      ensures forall k :: 0 <= k < end ==> Served(requests[k], result)
    {
      var page := pages[requests[begin].page];
      result := before;
      for i := begin to end
        invariant |result| == |before|
        invariant forall k :: 0 <= k < i ==> Served(requests[k], result)
      {
        assert OfInput(requests[i], ids);
        ghost var previous := result;
        result := result[requests[i].inputIndex := page[requests[i].id % perPage]];
        forall k | 0 <= k < i ensures Served(requests[k], result) {
          assert Served(requests[k], previous) && OfInput(requests[k], ids);
        }
      }
    }

    /**
     One read-modify-write per touched page, in ascending order, then a truncation; duplicate IDs are refused.
     `io` is the number of file changes that succeed. Every entry, touched or not, is as `WrittenEntry` says for
     the part of the batch that was written: all of it, or the lowest IDs.
     */
    method WriteBatch(updates: seq<Update>, io: nat) returns (r: Result<()>, ghost done: seq<Update>)
      requires Valid()
      modifies this
      ensures Valid() && Reflects(pages, old(pages), perPage, done)
      ensures r.Ok? ==> DistinctKeys(updates) && done == updates
      ensures r.Ok? ==> forall u :: u in updates ==> EntryIs(pages, perPage, u.0, u.1)
      ensures r.Ok? ==> forall id: nat, at :: EntryIs(old(pages), perPage, id, at) && Untouched(updates, id) ==> EntryIs(pages, perPage, id, at)
      ensures !DistinctKeys(updates) ==> r == Err(InvalidArgument) && done == [] && pages == old(pages)
      ensures DistinctKeys(updates) && r.Err? ==> r.error == RuntimeError && Leading(done, updates)
      ensures DistinctKeys(updates) && io > LengthAfter(|old(pages)|, updates, perPage) ==> r.Ok?
    {
      NothingWritten(pages, perPage);
      if |updates| == 0 {
        return Ok(()), updates;
      }
      var sorted := SortUpdates(updates);
      if sorted.Err? {
        return Err(sorted.error), [];
      }
      ghost var original := pages;
      var written, reached := WriteSorted(sorted.value, io);
      SortedLength(original, perPage, sorted.value, updates);
      if !written {
        PrefixLeads(sorted.value, reached, updates);
        return Err(RuntimeError), sorted.value[..reached];
      }
      assert sorted.value[..reached] == sorted.value;
      ReflectsPermuted(pages, original, perPage, sorted.value, updates);
      EntriesWritten(pages, original, perPage, updates);
      return Ok(()), updates;
    }

    /** The batch by ascending ID; neighbours with the same ID are refused. */
    method SortUpdates(updates: seq<Update>) returns (r: Result<seq<Update>>)
      requires updates != []
      ensures r.Ok? <==> DistinctKeys(updates)
      ensures r.Ok? ==> KeysAscend(r.value) && DistinctKeys(r.value) && multiset(r.value) == multiset(updates)
      ensures r.Err? ==> r.error == InvalidArgument
    {
      var sorted := Sort(UpdateLess, updates);
      SortMultiset(UpdateLess, updates);
      SortSorted(UpdateLess, updates);
      KeysPermuted(updates, sorted);
      for i := 1 to |sorted|
        invariant forall j :: 0 < j < i ==> sorted[j - 1].0 < sorted[j].0
      {
        if sorted[i - 1].0 == sorted[i].0 {
          return Err(InvalidArgument);
        }
        assert !UpdateLess(sorted[i], sorted[i - 1]);
      }
      AdjacentAscending(sorted);
      return Ok(sorted);
    }

    /** The groups in order; `reached` updates are in the file when it returns. */
    method WriteSorted(updates: seq<Update>, io: nat) returns (written: bool, ghost reached: nat)
      requires Valid() && KeysAscend(updates)
      modifies this
      ensures reached <= |updates| && Valid() && Reflects(pages, old(pages), perPage, updates[..reached])
      ensures written ==> reached == |updates|
      ensures io > LengthAfter(|old(pages)|, updates, perPage) ==> written
    {
      ghost var original := pages;
      var begin, changes := 0, 0;
      NothingWritten(pages, perPage);
      assert updates[..0] == [];
      while begin < |updates|
        invariant Valid() && Progress(updates, begin, changes, |pages|, |original|)
        invariant Reflects(pages, original, perPage, updates[..begin])
      {
        var end := UpdateGroupEnd(updates, begin);
        ProgressNext(updates, begin, end, changes, |pages|, |original|);
        if changes == io {
          return false, begin;
        }
        assert updates[..begin] + updates[begin..end] == updates[..end];
        WriteGroup(updates, begin, end, original, updates[..begin]);
        changes := changes + 1;
        begin := end;
      }
      assert updates[..|updates|] == updates;
      // The truncation to the current length changes no entry.
      return changes < io, |updates|;
    }

    /** The groups before `begin` have been written, each with one change, and the file ends where they end or did before. */
    ghost predicate Progress(updates: seq<Update>, begin: nat, changes: nat, length: nat, original: nat)
      requires perPage > 0
    {
      && begin <= |updates| && GroupBoundary(updates, begin)
      && (length == original || length == PagesBefore(updates, begin, perPage))
      && changes <= PagesBefore(updates, begin, perPage) && changes <= LengthAfter(original, updates, perPage)
    }

    lemma ProgressNext(updates: seq<Update>, begin: nat, end: nat, changes: nat, length: nat, original: nat)
      requires Valid() && KeysAscend(updates) && begin < end <= |updates| && Progress(updates, begin, changes, length, original)
      requires forall k :: begin <= k < end ==> updates[k].0 / perPage == updates[begin].0 / perPage
      requires GroupBoundary(updates, end)
      ensures !Touches(updates[..begin], perPage, updates[begin].0 / perPage)
      ensures length == original || length <= updates[begin].0 / perPage
      ensures changes < LengthAfter(original, updates, perPage)
      ensures Progress(updates, end, changes + 1, original, original)
      ensures Progress(updates, end, changes + 1, updates[begin].0 / perPage + 1, original)
    {
      BoundaryUntouched(updates, begin, end);
      PageBelowLength(original, updates, begin, perPage);
      PagesGrow(updates, begin, end, perPage);
    }

    /** The update before `begin` belongs to an earlier page than the one at it. */
    ghost predicate GroupBoundary(updates: seq<Update>, begin: nat)
      requires perPage > 0 && begin <= |updates|
    {
      begin == 0 || begin == |updates| || updates[begin - 1].0 / perPage < updates[begin].0 / perPage
    }

    method UpdateGroupEnd(updates: seq<Update>, begin: nat) returns (end: nat)
      requires Valid() && KeysAscend(updates) && begin < |updates|
      ensures begin < end <= |updates|
      ensures forall k :: begin <= k < end ==> updates[k].0 / perPage == updates[begin].0 / perPage
      ensures GroupBoundary(updates, end)
    {
      end := begin + 1;
      while end < |updates| && updates[end].0 / perPage == updates[begin].0 / perPage
        invariant begin < end <= |updates|
        invariant forall k :: begin <= k < end ==> updates[k].0 / perPage == updates[begin].0 / perPage
      {
        end := end + 1;
      }
      if end < |updates| {
        QuotientMonotone(updates[end - 1].0, updates[end].0, perPage);
      }
    }

    lemma BoundaryUntouched(updates: seq<Update>, begin: nat, end: nat)
      requires Valid() && KeysAscend(updates) && begin < end <= |updates| && GroupBoundary(updates, begin)
      ensures !Touches(updates[..begin], perPage, updates[begin].0 / perPage)
      ensures begin > 0 ==> updates[begin - 1].0 / perPage + 1 <= updates[begin].0 / perPage
    {
      forall i | 0 <= i < begin ensures updates[..begin][i].0 / perPage < updates[begin].0 / perPage {
        QuotientMonotone(updates[i].0, updates[begin - 1].0, perPage);
      }
    }

    method WriteGroup(updates: seq<Update>, begin: nat, end: nat, ghost original: seq<DirectoryPage>, ghost done: seq<Update>)
      requires Valid() && begin < end <= |updates|
      requires NextGroup(pages, original, perPage, done, updates[begin..end], updates[begin].0 / perPage)
      modifies this
      ensures Valid() && Reflects(pages, original, perPage, done + updates[begin..end])
      ensures |pages| == |original| || |pages| == updates[begin].0 / perPage + 1
    {
      var pageId := updates[begin].0 / perPage;
      GroupStep(pages, original, perPage, done, updates[begin..end], pageId);
      var page := if pageId < |pages| then pages[pageId] else Filled(perPage, TOMBSTONE);
      page := ApplyGroup(page, updates, begin, end);
      pages := WritePage(pages, perPage, pageId, page);
    }

    method ApplyGroup(before: DirectoryPage, updates: seq<Update>, begin: nat, end: nat) returns (page: DirectoryPage)
      requires perPage > 0 && |before| == perPage && begin <= end <= |updates|
      ensures page == GroupImage(before, perPage, updates[begin..end])
    {
      page := before;
      for i := begin to end
        invariant page == GroupImage(before, perPage, updates[begin..i])
      {
        assert updates[begin..i + 1][..i - begin] == updates[begin..i];
        page := page[updates[i].0 % perPage := updates[i].1];
      }
    }
  }

  // ---------------------------------------------------------------- order of a batch

  ghost predicate KeysAscend(s: seq<Update>) {
    forall i, j :: 0 <= i < j < |s| ==> s[i].0 < s[j].0
  }

  /** Where the file must reach for the update before `begin`. */
  function PagesBefore(updates: seq<Update>, begin: nat, perPage: nat): nat
    requires perPage > 0 && begin <= |updates|
  {
    if begin == 0 then 0 else updates[begin - 1].0 / perPage + 1
  }

  lemma PagesGrow(updates: seq<Update>, begin: nat, end: nat, perPage: nat)
    requires perPage > 0 && begin < end <= |updates|
    requires forall k :: begin <= k < end ==> updates[k].0 / perPage == updates[begin].0 / perPage
    requires begin > 0 ==> updates[begin - 1].0 / perPage + 1 <= updates[begin].0 / perPage
    ensures PagesBefore(updates, end, perPage) == updates[begin].0 / perPage + 1
    ensures PagesBefore(updates, begin, perPage) <= updates[begin].0 / perPage
  {
    assert updates[end - 1].0 / perPage == updates[begin].0 / perPage;
    QuotientNat(updates[begin].0, perPage);
  }

  /** A part of a batch that holds its lowest IDs. */
  ghost predicate Leading(done: seq<Update>, updates: seq<Update>) {
    && DistinctKeys(done)
    && (forall u :: u in done ==> u in updates)
    && (forall u, v :: u in done && v in updates && v.0 < u.0 ==> v in done)
  }

  lemma PrefixLeads(sorted: seq<Update>, reached: nat, updates: seq<Update>)
    requires KeysAscend(sorted) && reached <= |sorted| && multiset(sorted) == multiset(updates)
    ensures Leading(sorted[..reached], updates)
  {
    var done := sorted[..reached];
    forall u ensures u in sorted <==> u in updates { assert u in multiset(sorted) <==> u in multiset(updates); }
    forall u, v | u in done && v in updates && v.0 < u.0 ensures v in done {
      var i :| 0 <= i < reached && sorted[i] == u;
      var j :| 0 <= j < |sorted| && sorted[j] == v;
      assert j < i;
      assert done[j] == v;
    }
  }

  lemma NothingWritten(pages: seq<DirectoryPage>, perPage: nat)
    requires perPage > 0 && Uniform(pages, perPage)
    ensures Reflects(pages, pages, perPage, [])
  {
    forall id: nat ensures EntryAt(pages, perPage, id) == WrittenEntry(pages, perPage, [], id) {
      QuotientNat(id, perPage);
    }
  }

  lemma SortedLength(pages: seq<DirectoryPage>, perPage: nat, sorted: seq<Update>, updates: seq<Update>)
    requires perPage > 0 && multiset(sorted) == multiset(updates)
    ensures LengthAfter(|pages|, sorted, perPage) == LengthAfter(|pages|, updates, perPage)
  {
    forall u ensures u in sorted <==> u in updates { assert u in multiset(sorted) <==> u in multiset(updates); }
    LengthPermuted(|pages|, sorted, updates, perPage);
  }

  lemma PageBelowLength(length: nat, updates: seq<Update>, i: nat, perPage: nat)
    requires perPage > 0 && i < |updates|
    ensures updates[i].0 / perPage < LengthAfter(length, updates, perPage)
  {
    LengthIsMaximum(length, updates, perPage);
    assert updates[i] in updates;
  }

  function HasKey(id: nat): Update -> bool {
    (u: Update) => u.0 == id
  }

  lemma AdjacentAscending(s: seq<Update>)
    requires forall j :: 0 < j < |s| ==> s[j - 1].0 < s[j].0
    ensures KeysAscend(s)
  {
    forall i, j | 0 <= i < j < |s| ensures s[i].0 < s[j].0 {
      AscendingFrom(s, i, j);
    }
  }

  lemma {:induction false} AscendingFrom(s: seq<Update>, i: nat, j: nat)
    requires forall k :: 0 < k < |s| ==> s[k - 1].0 < s[k].0
    requires i < j < |s|
    ensures s[i].0 < s[j].0
  {
    assert s[j - 1].0 < s[j].0;
    if i < j - 1 { AscendingFrom(s, i, j - 1); }
  }

  lemma {:induction false} DistinctKeysCount(s: seq<Update>)
    ensures DistinctKeys(s) <==> forall id: nat :: Count(HasKey(id), s) <= 1
  {
    if s != [] {
      var t, x := s[..|s| - 1], s[|s| - 1];
      DistinctKeysCount(t);
      if DistinctKeys(s) {
        forall u | u in t ensures !HasKey(x.0)(u) {
          var i :| 0 <= i < |t| && t[i] == u;
          assert s[i].0 != s[|s| - 1].0;
        }
        CountNone(HasKey(x.0), t);
      } else if DistinctKeys(t) {
        var i :| 0 <= i < |t| && t[i].0 == x.0;
        assert t == t[..i] + [t[i]] + t[i + 1..];
        CountConcat(HasKey(x.0), t[..i] + [t[i]], t[i + 1..]);
        CountConcat(HasKey(x.0), t[..i], [t[i]]);
        CountOne(HasKey(x.0), t[i]);
        assert Count(HasKey(x.0), s) > 1;
      } else {
        var id: nat :| Count(HasKey(id), t) > 1;
        assert Count(HasKey(id), s) > 1;
      }
    }
  }

  lemma KeysPermuted(a: seq<Update>, b: seq<Update>)
    requires multiset(a) == multiset(b)
    ensures DistinctKeys(a) <==> DistinctKeys(b)
  {
    DistinctKeysCount(a);
    DistinctKeysCount(b);
    forall id: nat ensures Count(HasKey(id), a) == Count(HasKey(id), b) {
      CountMultiset(HasKey(id), a, b);
    }
  }

  lemma {:induction false} LengthIsMaximum(length: nat, updates: seq<Update>, perPage: nat)
    requires perPage > 0
    ensures var n := LengthAfter(length, updates, perPage);
      && (forall u :: u in updates ==> u.0 / perPage < n)
      && (n == length || exists u :: u in updates && u.0 / perPage + 1 == n)
  {
    if updates != [] {
      LengthIsMaximum(length, updates[..|updates| - 1], perPage);
      assert updates == updates[..|updates| - 1] + [updates[|updates| - 1]];
    }
  }

  lemma LengthPermuted(length: nat, a: seq<Update>, b: seq<Update>, perPage: nat)
    requires perPage > 0 && forall u :: u in a <==> u in b
    ensures LengthAfter(length, a, perPage) == LengthAfter(length, b, perPage)
  {
    LengthIsMaximum(length, a, perPage);
    LengthIsMaximum(length, b, perPage);
  }

  lemma ReflectsPermuted(pages: seq<DirectoryPage>, original: seq<DirectoryPage>, perPage: nat, a: seq<Update>, b: seq<Update>)
    requires perPage > 0 && multiset(a) == multiset(b) && DistinctKeys(a) && DistinctKeys(b)
    requires Reflects(pages, original, perPage, a)
    ensures Reflects(pages, original, perPage, b)
  {
    forall u ensures u in a <==> u in b { assert u in multiset(a) <==> u in multiset(b); }
    LengthPermuted(|original|, a, b, perPage);
    forall id: nat ensures EntryAt(pages, perPage, id) == WrittenEntry(original, perPage, b, id) {
      assert EntryAt(pages, perPage, id) == WrittenEntry(original, perPage, a, id);
      QuotientNat(id, perPage);
      LatestPermuted(a, b, id);
      SameTouches(a, b, perPage, id / perPage);
      EntryFrom(original, perPage, a, b, id, id / perPage);
    }
  }

  lemma SameTouches(a: seq<Update>, b: seq<Update>, perPage: nat, p: nat)
    requires perPage > 0 && forall u :: u in a <==> u in b
    ensures Touches(a, perPage, p) <==> Touches(b, perPage, p)
  {
    TouchesMembers(a, b, perPage, p);
    TouchesMembers(b, a, perPage, p);
  }

  lemma EntryFrom(original: seq<DirectoryPage>, perPage: nat, a: seq<Update>, b: seq<Update>, id: nat, p: nat)
    requires perPage > 0 && p == id / perPage && Latest(a, id) == Latest(b, id)
    requires LengthAfter(|original|, a, perPage) == LengthAfter(|original|, b, perPage)
    requires Touches(a, perPage, p) <==> Touches(b, perPage, p)
    ensures WrittenEntry(original, perPage, a, id) == WrittenEntry(original, perPage, b, id)
  {
  }

  lemma TouchesMembers(a: seq<Update>, b: seq<Update>, perPage: nat, p: nat)
    requires perPage > 0 && forall u :: u in a ==> u in b
    ensures Touches(a, perPage, p) ==> Touches(b, perPage, p)
  {
    if Touches(a, perPage, p) {
      var i :| 0 <= i < |a| && a[i].0 / perPage == p;
      assert a[i] in b;
      var j :| 0 <= j < |b| && b[j] == a[i];
      assert b[j].0 / perPage == p;
    }
  }
}
