/** The max-heap of the K smallest upper endpoints, seen as the sorted sequence of its contents. */
module UpperHeap {
  import opened Extended
  import opened Sorting
  import opened Selection

  function Top(heap: seq<Ext>): Ext
    requires heap != []
  {
    heap[|heap| - 1]
  }

  /** One `update_upper` call: push while short, otherwise replace the top by anything smaller. */
  function Update(heap: seq<Ext>, upper: Ext, k: nat): (r: seq<Ext>)
    requires |heap| <= k && k > 0
    ensures |r| <= k
  {
    if |heap| < k then Insert(Lt, upper, heap)
    else if Lt(upper, Top(heap)) then Insert(Lt, upper, heap[..k - 1])
    else heap
  }

  function UpdateAll(heap: seq<Ext>, uppers: seq<Ext>, k: nat): (r: seq<Ext>)
    requires |heap| <= k && k > 0
    ensures |r| <= k
  {
    if uppers == [] then heap
    else Update(UpdateAll(heap, uppers[..|uppers| - 1], k), uppers[|uppers| - 1], k)
  }

  /** Updating the K smallest of `s` gives the K smallest of `s` plus the new value. */
  lemma UpdateTake(s: seq<Ext>, upper: Ext, k: nat)
    requires Sorted(Lt, s) && k > 0
    ensures Update(Take(s, k), upper, k) == Take(Insert(Lt, upper, s), k)
  {
    LtOrder();
    if k <= |s| {
      TakeInsert(Lt, upper, s, k);
      assert Take(s, k)[k - 1] == s[k - 1];
      assert Take(s, k)[..k - 1] == s[..k - 1];
    }
  }

  lemma {:induction false} UpdateAllTake(seen: seq<Ext>, uppers: seq<Ext>, k: nat)
    requires k > 0
    ensures UpdateAll(Take(Sort(Lt, seen), k), uppers, k) == Take(Sort(Lt, seen + uppers), k)
  {
    LtOrder();
    if uppers == [] {
      assert seen + uppers == seen;
    } else {
      var head := uppers[..|uppers| - 1];
      UpdateAllTake(seen, head, k);
      assert (seen + uppers)[..|seen + uppers| - 1] == seen + head;
      SortSorted(Lt, seen + head);
      UpdateTake(Sort(Lt, seen + head), uppers[|uppers| - 1], k);
    }
  }

  /** The register compare before the heap: lanes below the top the batch started with. */
  function Passes(heap: seq<Ext>, k: nat): Ext -> bool
    requires k > 0
  {
    u => |heap| < k || (|heap| > 0 && Lt(u, Top(heap)))
  }

  /** The top never rises, so what a stale top rejects every later top rejects as well. */
  lemma {:induction false} StaleTop(heap: seq<Ext>, uppers: seq<Ext>, k: nat)
    requires Sorted(Lt, heap) && |heap| <= k && k > 0
    ensures var later := UpdateAll(heap, uppers, k);
      && Sorted(Lt, later)
      && (|heap| == k ==> |later| == k && !Lt(Top(heap), Top(later)))
  {
    LtOrder();
    if uppers != [] {
      var head, u := uppers[..|uppers| - 1], uppers[|uppers| - 1];
      StaleTop(heap, head, k);
      var h := UpdateAll(heap, head, k);
      if |h| < k {
        InsertSorted(Lt, u, h);
      } else if Lt(u, Top(h)) {
        InsertSorted(Lt, u, h[..k - 1]);
        InsertBound(u, h[..k - 1], Top(h));
      }
    }
  }

  lemma InsertBound(u: Ext, s: seq<Ext>, bound: Ext)
    requires !Lt(bound, u) && forall x :: x in s ==> !Lt(bound, x)
    ensures !Lt(bound, Top(Insert(Lt, u, s)))
  {
    InsertMultiset(Lt, u, s);
    assert Top(Insert(Lt, u, s)) in multiset(Insert(Lt, u, s));
  }

  /** Dropping the lanes a stale top rejects leaves the final heap unchanged. */
  lemma {:induction false} StaleRejectsHarmless(heap: seq<Ext>, uppers: seq<Ext>, k: nat)
    requires Sorted(Lt, heap) && |heap| <= k && k > 0
    ensures UpdateAll(heap, Filter(Passes(heap, k), uppers), k) == UpdateAll(heap, uppers, k)
  {
    LtOrder();
    if uppers != [] {
      var head, u := uppers[..|uppers| - 1], uppers[|uppers| - 1];
      var f := Filter(Passes(heap, k), head);
      StaleRejectsHarmless(heap, head, k);
      if Passes(heap, k)(u) {
        assert (f + [u])[..|f + [u]| - 1] == f;
      } else {
        assert Filter(Passes(heap, k), uppers) == f;
        StaleTop(heap, head, k);
      }
    }
  }
}
