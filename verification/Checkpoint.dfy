/**
 Checkpoint publication (adapters/external_list_ivf.cpp): generation files first, the manifest last, and what a
 load finds after an interruption at any point.
 */
module Checkpoint {
  import opened Arithmetic
  import opened Outcomes
  import P = Permutations
  import opened PostingList
  import opened RecordPages
  import opened RecordStore
  import opened PostingFile

  type Bytes = seq<bv8>

  const UINT64_MAX: nat := 0xffff_ffff_ffff_ffff

  datatype Manifest = NoManifest | Manifest(generation: nat, nextId: nat, activeCount: nat)

  /** What one checkpoint captures. */
  datatype Snapshot = Snapshot(lists: seq<MemoryList>, nextId: nat, activeCount: nat)

  /** The installed files: temporaries are not represented, a replacement installs a complete file or nothing. */
  datatype Files = Files(sizes: map<nat, seq<nat>>, postings: map<nat, Bytes>, manifest: Manifest)

  /** Both files of the manifest's generation are there, and they belong to this snapshot. */
  ghost predicate Installed(f: Files, subquantizers: nat, s: Snapshot) {
    && f.manifest.Manifest? && AllCovered(s.lists, subquantizers)
    && f.manifest.nextId == s.nextId && f.manifest.activeCount == s.activeCount
    && Kept(f, f.manifest.generation, subquantizers, s)
  }

  ghost predicate Kept(f: Files, generation: nat, subquantizers: nat, s: Snapshot)
    requires AllCovered(s.lists, subquantizers)
  {
    && generation in f.sizes && f.sizes[generation] == SizesOf(s.lists)
    && generation in f.postings && f.postings[generation] == FileBytes(s.lists, subquantizers)
  }

  /** The files of the generation are the same, or missing from both. */
  ghost predicate SameGeneration(f: Files, f': Files, g: nat) {
    && (g in f.sizes <==> g in f'.sizes) && (g in f.sizes && g in f'.sizes ==> f.sizes[g] == f'.sizes[g])
    && (g in f.postings <==> g in f'.postings) && (g in f.postings && g in f'.postings ==> f.postings[g] == f'.postings[g])
  }

  function PutSizes(f: Files, generation: nat, sizes: seq<nat>): Files {
    f.(sizes := f.sizes[generation := sizes])
  }

  function PutPostings(f: Files, generation: nat, bytes: Bytes): Files {
    f.(postings := f.postings[generation := bytes])
  }

  /** What an object with this generation relies on: its generation is the installed one, or nothing has been published. */
  ghost predicate Stands(f: Files, subquantizers: nat, generation: nat, published: Snapshot) {
    if generation == 0 then f.manifest == NoManifest
    else Installed(f, subquantizers, published) && f.manifest.generation == generation
  }

  class CheckpointRoot {
    const subquantizers: nat
    var files: Files
    var generation: nat
    /** The snapshot that a load would find. */
    ghost var published: Snapshot

    ghost predicate Valid()
      reads this
    {
      Stands(files, subquantizers, generation, published)
    }

    constructor Fresh(subquantizers: nat)
      ensures Valid() && generation == 0 && this.subquantizers == subquantizers
    {
      this.subquantizers := subquantizers;
      files := Files(map[], map[], NoManifest);
      generation := 0;
      published := Snapshot([], 0, 0);
    }

    constructor Loaded(subquantizers: nat, files: Files, generation: nat, ghost published: Snapshot)
      requires Stands(files, subquantizers, generation, published)
      ensures Valid() && this.subquantizers == subquantizers
      ensures this.files == files && this.generation == generation && this.published == published
    {
      this.subquantizers, this.files, this.generation, this.published := subquantizers, files, generation, published;
    }

    /**
     One checkpoint. `io` is the number of file changes that succeed: three replacements, then two removals whose
     failure is ignored. Whenever it stops short, the manifest still names the previous checkpoint, complete;
     otherwise it names this one.
     */
    method Save(s: Snapshot, io: nat) returns (r: Result<()>)
      requires Valid() && AllCovered(s.lists, subquantizers)
      modifies this
      ensures Valid()
      ensures r.Ok? ==> published == s && generation == old(generation) + 1
      ensures r.Ok? && old(generation) != 0 && io >= 5 ==> old(generation) !in files.sizes && old(generation) !in files.postings
      ensures forall g: nat :: g != old(generation) && g != old(generation) + 1 ==> SameGeneration(files, old(files), g)
      ensures r.Err? ==> published == old(published) && generation == old(generation)
      ensures r.Ok? <==> io >= 3 && old(generation) < UINT64_MAX
      ensures r.Err? ==> r.error in {Overflow, RuntimeError}
    {
      if generation >= UINT64_MAX {
        return Err(Overflow);
      }
      var next := generation + 1;
      var bytes := WritePostings(s.lists, subquantizers);
      if io < 1 {
        return Err(RuntimeError);
      }
      files := PutSizes(files, next, SizesOf(s.lists));
      if io < 2 {
        return Err(RuntimeError);
      }
      files := PutPostings(files, next, bytes);
      if io < 3 {
        return Err(RuntimeError);
      }
      files := files.(manifest := Manifest(next, s.nextId, s.activeCount));
      published := s;
      var previous := generation;
      generation := next;
      if previous != 0 && io >= 4 {
        files := files.(sizes := files.sizes - {previous});
      }
      if previous != 0 && io >= 5 {
        files := files.(postings := files.postings - {previous});
      }
      return Ok(());
    }

    /**
     Opening a root again, whatever earlier checkpoints of it were interrupted: the last published checkpoint,
     with buffers cut to whole logical tiles. The new object takes over the installed generation.
     */
    static method Load(subquantizers: nat, files: Files, store: ListFileRecordStore, ghost generation: nat, ghost published: Snapshot)
      returns (r: Result<(CheckpointRoot, Snapshot)>)
      requires Stands(files, subquantizers, generation, published) && store.Valid()
      ensures r.Ok? ==> fresh(r.value.0) && r.value.0.Valid() && r.value.0.subquantizers == subquantizers && r.value.0.files == files
      ensures r.Ok? ==> r.value.0.generation == generation && r.value.0.published == published
      ensures r.Ok? ==> generation != 0 && r.value.1 == Snapshot(TrimmedAll(published.lists, subquantizers), published.nextId, published.activeCount)
      ensures r.Err? ==> r.error == RuntimeError
      ensures r.Ok? <==> generation != 0 && Loadable(published, store.files, store.perPage)
    {
      if files.manifest.NoManifest? {
        return Err(RuntimeError);
      }
      var manifest := files.manifest;
      if manifest.generation == 0 || manifest.nextId > UINT32_MAX || manifest.generation !in files.sizes {
        return Err(RuntimeError);
      }
      var sizes := files.sizes[manifest.generation];
      if !FilesFit(store.files, store.perPage, sizes) || P.Total(sizes) != manifest.activeCount {
        return Err(RuntimeError);
      }
      FileLength(published.lists, subquantizers);
      var lists := ReadPostings(sizes, subquantizers, files.postings[manifest.generation]);
      BytesDetermine(lists.value, published.lists, subquantizers);
      var root := new CheckpointRoot.Loaded(subquantizers, files, manifest.generation, published);
      return Ok((root, Snapshot(lists.value, manifest.nextId, manifest.activeCount)));
    }
  }

  /**
   Every record file has exactly the pages its recorded size needs, and the counters are in order. What the pages
   hold is not looked at.
   */
  ghost predicate Loadable(s: Snapshot, files: seq<seq<Page>>, perPage: nat)
    requires perPage > 0
  {
    s.nextId <= UINT32_MAX && FilesFit(files, perPage, SizesOf(s.lists)) && P.Total(SizesOf(s.lists)) == s.activeCount
  }

  /** Every record file holds exactly the pages its recorded size needs. */
  predicate FilesFit(files: seq<seq<Page>>, perPage: nat, sizes: seq<nat>)
    requires perPage > 0
  {
    |files| == |sizes| && forall l :: 0 <= l < |sizes| ==> |files[l]| == PageCount(sizes[l], perPage)
  }
}
