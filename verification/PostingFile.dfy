/** The postings file of a checkpoint: every list's logical tiles in list order, and reading them back. */
module PostingFile {
  import opened Outcomes
  import opened Pq4Layout
  import opened PostingPacking
  import opened PostingList
  import opened IndexRows
  import opened IndexLists

  /** The bytes of one list that a checkpoint keeps: whole tiles up to the padded size. */
  function CodeBytes(size: nat, subquantizers: nat): nat {
    BlocksFor(size) * BlockStride(subquantizers)
  }

  function MetadataBytes(size: nat): nat {
    BlocksFor(size) * METADATA_BLOCK
  }

  ghost predicate Covered(list: MemoryList, subquantizers: nat) {
    && CodeBytes(list.logicalSize, subquantizers) <= |list.packedCodes|
    && MetadataBytes(list.logicalSize) <= |list.packedMetadata|
    && list.paddedSize == BlocksFor(list.logicalSize) * 32
  }

  /** A list with its buffers cut to its logical tiles. */
  function Trimmed(list: MemoryList, subquantizers: nat): MemoryList
    requires Covered(list, subquantizers)
  {
    list.(packedCodes := list.packedCodes[..CodeBytes(list.logicalSize, subquantizers)],
          packedMetadata := list.packedMetadata[..MetadataBytes(list.logicalSize)])
  }

  function ListBytes(list: MemoryList, subquantizers: nat): seq<Byte>
    requires Covered(list, subquantizers)
  {
    Trimmed(list, subquantizers).packedCodes + Trimmed(list, subquantizers).packedMetadata
  }

  ghost predicate AllCovered(lists: seq<MemoryList>, subquantizers: nat) {
    forall l :: 0 <= l < |lists| ==> Covered(lists[l], subquantizers)
  }

  function SizesOf(lists: seq<MemoryList>): (s: seq<nat>)
    ensures |s| == |lists|
  {
    seq(|lists|, l requires 0 <= l < |lists| => lists[l].logicalSize)
  }

  function TrimmedAll(lists: seq<MemoryList>, subquantizers: nat): (t: seq<MemoryList>)
    requires AllCovered(lists, subquantizers)
    ensures |t| == |lists|
  {
    seq(|lists|, l requires 0 <= l < |lists| && Covered(lists[l], subquantizers) => Trimmed(lists[l], subquantizers))
  }

  /** All lists' bytes, from the first list on. */
  function FileBytes(lists: seq<MemoryList>, subquantizers: nat): seq<Byte>
    requires AllCovered(lists, subquantizers)
  {
    if lists == [] then [] else ListBytes(lists[0], subquantizers) + FileBytes(lists[1..], subquantizers)
  }

  lemma {:induction false} FileBytesNext(lists: seq<MemoryList>, subquantizers: nat, l: nat)
    requires AllCovered(lists, subquantizers) && l < |lists|
    ensures AllCovered(lists[..l], subquantizers) && AllCovered(lists[..l + 1], subquantizers)
    ensures FileBytes(lists[..l + 1], subquantizers) == FileBytes(lists[..l], subquantizers) + ListBytes(lists[l], subquantizers)
  {
    if l == 0 {
      assert lists[..1][1..] == [];
    } else {
      assert lists[..l + 1][1..] == lists[1..][..l] && lists[..l][1..] == lists[1..][..l - 1];
      FileBytesNext(lists[1..], subquantizers, l - 1);
    }
  }

  /** Writing the lists one after the other. */
  method WritePostings(lists: seq<MemoryList>, subquantizers: nat) returns (bytes: seq<Byte>)
    requires AllCovered(lists, subquantizers)
    ensures bytes == FileBytes(lists, subquantizers)
  {
    bytes := [];
    for l := 0 to |lists|
      invariant AllCovered(lists[..l], subquantizers) && bytes == FileBytes(lists[..l], subquantizers)
    {
      FileBytesNext(lists, subquantizers, l);
      bytes := bytes + ListBytes(lists[l], subquantizers);
    }
    assert lists[..|lists|] == lists;
  }

  /** Reading back: the sizes say how many bytes belong to which list; a file that is too short or too long is refused. */
  method ReadPostings(sizes: seq<nat>, subquantizers: nat, bytes: seq<Byte>) returns (r: Result<seq<MemoryList>>)
    ensures r.Ok? <==> |bytes| == TotalBytes(sizes, subquantizers)
    ensures r.Err? ==> r.error == RuntimeError
    ensures r.Ok? ==> AllCovered(r.value, subquantizers) && SizesOf(r.value) == sizes
    ensures r.Ok? ==> FileBytes(r.value, subquantizers) == bytes && TrimmedAll(r.value, subquantizers) == r.value
  {
    var lists: seq<MemoryList> := [];
    var at := 0;
    for l := 0 to |sizes|
      invariant at <= |bytes| && at == TotalBytes(sizes[..l], subquantizers)
      invariant ReadUpTo(lists, sizes, subquantizers, bytes, l, at)
    {
      BytesNext(sizes, subquantizers, l);
      BytesMonotone(sizes, subquantizers, l + 1);
      var codes, metadata := CodeBytes(sizes[l], subquantizers), MetadataBytes(sizes[l]);
      if at + codes + metadata > |bytes| {
        return Err(RuntimeError);
      }
      var list := MemoryList(bytes[at..at + codes], bytes[at + codes..at + codes + metadata], sizes[l], BlocksFor(sizes[l]) * 32);
      ReadNext(lists, sizes, subquantizers, bytes, l, at, list);
      lists := lists + [list];
      at := at + codes + metadata;
    }
    assert sizes[..|sizes|] == sizes;
    if at != |bytes| {
      return Err(RuntimeError);
    }
    assert bytes[..at] == bytes;
    return Ok(lists);
  }

  function TotalBytes(sizes: seq<nat>, subquantizers: nat): nat {
    if sizes == [] then 0 else
      TotalBytes(sizes[..|sizes| - 1], subquantizers)
      + CodeBytes(sizes[|sizes| - 1], subquantizers) + MetadataBytes(sizes[|sizes| - 1])
  }

  lemma BytesNext(sizes: seq<nat>, subquantizers: nat, l: nat)
    requires l < |sizes|
    ensures TotalBytes(sizes[..l + 1], subquantizers)
         == TotalBytes(sizes[..l], subquantizers) + CodeBytes(sizes[l], subquantizers) + MetadataBytes(sizes[l])
  {
    assert sizes[..l + 1][..l] == sizes[..l];
  }

  lemma {:induction false} BytesMonotone(sizes: seq<nat>, subquantizers: nat, l: nat)
    requires l <= |sizes|
    ensures TotalBytes(sizes[..l], subquantizers) <= TotalBytes(sizes, subquantizers)
    decreases |sizes| - l
  {
    if l < |sizes| {
      BytesNext(sizes, subquantizers, l);
      BytesMonotone(sizes, subquantizers, l + 1);
    } else {
      assert sizes[..l] == sizes;
    }
  }

  ghost predicate ReadUpTo(lists: seq<MemoryList>, sizes: seq<nat>, subquantizers: nat, bytes: seq<Byte>, l: nat, at: nat)
    requires l <= |sizes| && at <= |bytes|
  {
    && AllCovered(lists, subquantizers) && SizesOf(lists) == sizes[..l]
    && TrimmedAll(lists, subquantizers) == lists && FileBytes(lists, subquantizers) == bytes[..at]
  }

  lemma ReadNext(lists: seq<MemoryList>, sizes: seq<nat>, subquantizers: nat, bytes: seq<Byte>, l: nat, at: nat, list: MemoryList)
    requires l < |sizes| && at <= |bytes| && ReadUpTo(lists, sizes, subquantizers, bytes, l, at)
    requires var (c, m) := (CodeBytes(sizes[l], subquantizers), MetadataBytes(sizes[l]));
      && at + c + m <= |bytes|
      && list == MemoryList(bytes[at..at + c], bytes[at + c..at + c + m], sizes[l], BlocksFor(sizes[l]) * 32)
    ensures ReadUpTo(lists + [list], sizes, subquantizers, bytes, l + 1,
                     at + CodeBytes(sizes[l], subquantizers) + MetadataBytes(sizes[l]))
  {
    var next := lists + [list];
    assert Trimmed(list, subquantizers) == list;
    assert next[..|lists|] == lists && next[..|next|] == next;
    forall k | 0 <= k < |next| ensures Covered(next[k], subquantizers) && Trimmed(next[k], subquantizers) == next[k] {
      if k < |lists| { assert TrimmedAll(lists, subquantizers)[k] == lists[k]; }
    }
    FileBytesNext(next, subquantizers, |lists|);
    assert |lists| == l;
    assert SizesOf(next) == SizesOf(lists) + [sizes[l]];
  }

  // ---------------------------------------------------------------- the round trip

  lemma {:induction false} TotalFrom(sizes: seq<nat>, subquantizers: nat)
    requires sizes != []
    ensures TotalBytes(sizes, subquantizers)
         == CodeBytes(sizes[0], subquantizers) + MetadataBytes(sizes[0]) + TotalBytes(sizes[1..], subquantizers)
  {
    if |sizes| > 1 {
      TotalFrom(sizes[..|sizes| - 1], subquantizers);
      assert sizes[..|sizes| - 1][1..] == sizes[1..][..|sizes| - 2];
    } else {
      assert sizes[..0] == [] && sizes[1..] == [];
    }
  }

  lemma {:induction false} FileLength(lists: seq<MemoryList>, subquantizers: nat)
    requires AllCovered(lists, subquantizers)
    ensures |FileBytes(lists, subquantizers)| == TotalBytes(SizesOf(lists), subquantizers)
  {
    if lists != [] {
      FileLength(lists[1..], subquantizers);
      TotalFrom(SizesOf(lists), subquantizers);
      assert SizesOf(lists)[1..] == SizesOf(lists[1..]);
    }
  }

  /** The sizes and the bytes determine the trimmed lists. */
  lemma {:induction false} BytesDetermine(a: seq<MemoryList>, b: seq<MemoryList>, subquantizers: nat)
    requires AllCovered(a, subquantizers) && AllCovered(b, subquantizers) && SizesOf(a) == SizesOf(b)
    requires FileBytes(a, subquantizers) == FileBytes(b, subquantizers)
    ensures TrimmedAll(a, subquantizers) == TrimmedAll(b, subquantizers)
  {
    if a != [] {
      assert SizesOf(a)[0] == SizesOf(b)[0];
      HeadBytes(a[0], b[0], subquantizers, FileBytes(a[1..], subquantizers), FileBytes(b[1..], subquantizers));
      assert SizesOf(a)[1..] == SizesOf(a[1..]) && SizesOf(b)[1..] == SizesOf(b[1..]);
      BytesDetermine(a[1..], b[1..], subquantizers);
      TailTrimmed(a, subquantizers);
      TailTrimmed(b, subquantizers);
    }
  }

  lemma TailTrimmed(a: seq<MemoryList>, subquantizers: nat)
    requires AllCovered(a, subquantizers) && a != []
    ensures AllCovered(a[1..], subquantizers)
    ensures TrimmedAll(a, subquantizers) == [Trimmed(a[0], subquantizers)] + TrimmedAll(a[1..], subquantizers)
  {
  }

  lemma HeadBytes(a: MemoryList, b: MemoryList, subquantizers: nat, x: seq<Byte>, y: seq<Byte>)
    requires Covered(a, subquantizers) && Covered(b, subquantizers) && a.logicalSize == b.logicalSize
    requires ListBytes(a, subquantizers) + x == ListBytes(b, subquantizers) + y
    ensures Trimmed(a, subquantizers) == Trimmed(b, subquantizers) && x == y
  {
    var c, m := CodeBytes(a.logicalSize, subquantizers), MetadataBytes(a.logicalSize);
    var p, q := ListBytes(a, subquantizers) + x, ListBytes(b, subquantizers) + y;
    assert p[..c] == Trimmed(a, subquantizers).packedCodes && q[..c] == Trimmed(b, subquantizers).packedCodes;
    assert p[c..c + m] == Trimmed(a, subquantizers).packedMetadata && q[c..c + m] == Trimmed(b, subquantizers).packedMetadata;
    assert p[c + m..] == x && q[c + m..] == y;
  }

  // ---------------------------------------------------------------- rows survive

  /** A trimmed list holds the same rows. */
  lemma TrimmedHolds(list: MemoryList, subquantizers: nat, rows: seq<Row>)
    requires ListHolds(list, subquantizers, rows) && Covered(list, subquantizers)
    ensures ListHolds(Trimmed(list, subquantizers), subquantizers, rows)
  {
    ResizedPostings(list, subquantizers, BlocksOf(list), BlocksFor(|rows|), PostingsOf(rows));
    var cut := list.(packedCodes := Resize(list.packedCodes, BlocksFor(|rows|) * BlockStride(subquantizers), 0),
                     packedMetadata := Resize(list.packedMetadata, BlocksFor(|rows|) * METADATA_BLOCK, 255));
    assert cut == Trimmed(list, subquantizers);
    BuffersBlocks(cut, subquantizers, BlocksFor(|rows|));
  }
}
