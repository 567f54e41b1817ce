/**
 Capacities of the groups (`plan_paired_capacities` of src/uneven_product_quantizer.cpp): hill climbing over
 pair capacities, for every scoring of a capacity profile.
 */
module CapacityPlanner {
  import opened Arithmetic
  import opened Sorting
  import opened Permutations
  import opened Outcomes

  /** Capacities of the pairs, as something to be scored. */
  datatype PairWidths = PairWidths(widths: seq<nat>)

  type Scoring = PairWidths -> real

  predicate Fewer(a: nat, b: nat) {
    a < b
  }

  ghost predicate Ordered(s: seq<nat>) {
    forall i, j :: 0 <= i < j < |s| ==> s[i] <= s[j]
  }

  /** Pair capacities that cover half the dimensions, none empty, none above the maximum, in ascending order. */
  ghost predicate Profile(s: seq<nat>, pairs: nat, half: nat, maximum: nat) {
    && |s| == pairs && Total(s) == half && Ordered(s)
    && forall i :: 0 <= i < |s| ==> 1 <= s[i] <= maximum
  }

  lemma FewerOrder()
    ensures StrictWeakOrder(Fewer) && Antisymmetric(Fewer)
  {
  }

  /** Sorting keeps the total and every bound, and orders the profile. */
  lemma SortedProfile(s: seq<nat>, pairs: nat, half: nat, maximum: nat)
    requires |s| == pairs && Total(s) == half && forall i :: 0 <= i < |s| ==> 1 <= s[i] <= maximum
    ensures Profile(Sort(Fewer, s), pairs, half, maximum)
  {
    FewerOrder();
    SortSorted(Fewer, s);
    SortMultiset(Fewer, s);
    TotalPermuted(Sort(Fewer, s), s);
    var t := Sort(Fewer, s);
    forall i | 0 <= i < |t| ensures 1 <= t[i] <= maximum {
      assert t[i] in t;
      SortMembers(Fewer, s, t[i]);
    }
    forall i, j | 0 <= i < j < |t| ensures t[i] <= t[j] {
      assert !Fewer(t[j], t[i]);
    }
  }

  /** One unit moved between two pairs. */
  function Transfer(s: seq<nat>, from: nat, to: nat): (r: seq<nat>)
    requires from < |s| && to < |s| && from != to && s[from] > 0
    ensures |r| == |s|
  {
    s[from := s[from] - 1][to := s[to] + 1]
  }

  lemma TransferProfile(s: seq<nat>, pairs: nat, half: nat, maximum: nat, from: nat, to: nat)
    requires Profile(s, pairs, half, maximum) && from < |s| && to < |s| && from != to && s[from] > 1 && s[to] < maximum
    ensures Profile(Sort(Fewer, Transfer(s, from, to)), pairs, half, maximum)
  {
    TotalUpdated(s, from, s[from] - 1);
    TotalUpdated(s[from := s[from] - 1], to, s[to] + 1);
    SortedProfile(Transfer(s, from, to), pairs, half, maximum);
  }

  lemma TransferMembers(s: seq<nat>, from: nat, to: nat)
    requires from < |s| && to < |s| && from != to && s[from] > 0
    ensures multiset(Transfer(s, from, to)) + multiset{s[from], s[to]} == multiset(s) + multiset{s[from] - 1, s[to] + 1}
  {
    var first := s[from := s[from] - 1];
    ReplacedMember(s, from, s[from] - 1);
    ReplacedMember(first, to, s[to] + 1);
    assert multiset{s[from], s[to]} == multiset{s[from]} + multiset{s[to]};
    assert multiset{s[from] - 1, s[to] + 1} == multiset{s[from] - 1} + multiset{s[to] + 1};
    Rebalance(multiset(s), multiset(first), multiset(Transfer(s, from, to)),
              multiset{s[from]}, multiset{s[from] - 1}, multiset{s[to]}, multiset{s[to] + 1});
  }

  lemma Rebalance(s: multiset<nat>, first: multiset<nat>, last: multiset<nat>,
                  a: multiset<nat>, a': multiset<nat>, b: multiset<nat>, b': multiset<nat>)
    requires first + a == s + a' && last + b == first + b'
    ensures last + (a + b) == s + (a' + b')
  {
    assert last + (a + b) == (last + b) + a == (first + b') + a == (first + a) + b' == (s + a') + b';
  }

  /** A transfer is determined by the two widths, whichever pairs have them. */
  lemma SameWidthTransfer(s: seq<nat>, from: nat, to: nat, from': nat, to': nat)
    requires from < |s| && to < |s| && from != to && from' < |s| && to' < |s| && from' != to'
    requires s[from] > 0 && s[from] == s[from'] && s[to] == s[to']
    ensures Sort(Fewer, Transfer(s, from, to)) == Sort(Fewer, Transfer(s, from', to'))
  {
    var t, t' := Transfer(s, from, to), Transfer(s, from', to');
    TransferMembers(s, from, to);
    TransferMembers(s, from', to');
    SameRest(multiset(t), multiset(t'), multiset{s[from], s[to]});
    FewerOrder();
    SortSorted(Fewer, t);
    SortSorted(Fewer, t');
    SortMultiset(Fewer, t);
    SortMultiset(Fewer, t');
    SortedUnique(Fewer, Sort(Fewer, t), Sort(Fewer, t'));
  }

  lemma SameRest(x: multiset<nat>, y: multiset<nat>, e: multiset<nat>)
    requires x + e == y + e
    ensures x == y
  {
    forall k: nat ensures x[k] == y[k] { assert (x + e)[k] == (y + e)[k]; }
  }

  // ---------------------------------------------------------------- the initial profile

  lemma {:induction false} TotalUniform(n: nat, x: nat)
    ensures Total(seq(n, _ => x)) == n * x
  {
    if n > 0 {
      assert seq(n, _ => x)[..n - 1] == seq(n - 1, _ => x);
      TotalUniform(n - 1, x);
      assert n * x == (n - 1) * x + x;
    }
  }

  /** The nearly uniform profile: the last pairs get one unit more. */
  function InitialProfile(half: nat, pairs: nat): (s: seq<nat>)
    requires pairs > 0
    ensures |s| == pairs
  {
    var base, larger := half / pairs, half % pairs;
    seq(pairs - larger, _ => base) + seq(larger, _ => base + 1)
  }

  lemma SplitProduct(pairs: nat, larger: nat, base: nat)
    requires larger <= pairs
    ensures (pairs - larger) * base + larger * (base + 1) == base * pairs + larger
  {
    assert pairs * base == (pairs - larger) * base + larger * base;
    assert larger * (base + 1) == larger * base + larger;
  }

  lemma InitialTotal(half: nat, pairs: nat)
    requires pairs > 0
    ensures Total(InitialProfile(half, pairs)) == half
  {
    var base, larger := half / pairs, half % pairs;
    QuotientParts(half, pairs);
    TotalUniform(pairs - larger, base);
    TotalUniform(larger, base + 1);
    TotalConcat(seq(pairs - larger, _ => base), seq(larger, _ => base + 1));
    SplitProduct(pairs, larger, base);
  }

  /** It covers half the dimensions, ascending, with widths that differ by at most one. */
  lemma InitialIsUniform(half: nat, pairs: nat)
    requires pairs > 0
    ensures var s := InitialProfile(half, pairs);
      |s| == pairs && Total(s) == half && forall i, j :: 0 <= i < j < pairs ==> s[i] <= s[j] <= s[i] + 1
  {
    InitialTotal(half, pairs);
  }

  lemma InitialIsProfile(half: nat, pairs: nat, maximum: nat)
    requires 0 < pairs <= half && (if half % pairs == 0 then half / pairs else half / pairs + 1) <= maximum
    ensures Profile(InitialProfile(half, pairs), pairs, half, maximum)
  {
    InitialTotal(half, pairs);
    QuotientMonotone(pairs, half, pairs);
    QuotientOf(1, 0, pairs);
  }

  lemma TwiceProduct(q: nat, p: nat)
    ensures q * (2 * p) == 2 * (q * p) && (q + 1) * (2 * p) == 2 * (q * p) + 2 * p
  {
  }

  /** Rounding up the average width of a group is rounding up that of a pair. */
  lemma CeilingOfPairs(half: nat, pairs: nat, q: nat, r: nat)
    requires pairs > 0 && half == q * pairs + r && r < pairs
    ensures (2 * half + 2 * pairs - 1) / (2 * pairs) == if r == 0 then q else q + 1
  {
    TwiceProduct(q, pairs);
    if r == 0 {
      QuotientOf(q, 2 * pairs - 1, 2 * pairs);
    } else {
      QuotientOf(q + 1, 2 * r - 1, 2 * pairs);
    }
  }

  // ---------------------------------------------------------------- hill climbing

  /** The second representative of a width when the donor is its first one. */
  method OtherPair(s: seq<nat>, from: nat, to: nat) returns (actual: nat)
    requires from < |s| && to < |s|
    ensures actual <= |s| && (actual < |s| ==> actual != from && s[actual] == s[to])
    ensures actual == |s| ==> to == from && forall j :: from < j < |s| ==> s[j] != s[to]
  {
    actual := to;
    if actual == from {
      actual := actual + 1;
      while actual < |s| && s[actual] != s[to]
        invariant from < actual <= |s| && forall j :: from < j < actual ==> s[j] != s[to]
      {
        actual := actual + 1;
      }
    }
  }

  /** The best trial seen so far: none, or a valid profile that is better than `current` by the tolerance. */
  ghost predicate BestSoFar(best: seq<nat>, bestScore: real, current: real, pairs: nat, half: nat, maximum: nat, score: Scoring) {
    if best == [] then bestScore == current
    else Profile(best, pairs, half, maximum) && bestScore == score(PairWidths(best)) && score(PairWidths(best)) + SCORE_TOLERANCE < current
  }

  /** One unit may move from the one pair to the other. */
  predicate Transfers(s: seq<nat>, maximum: nat, from: nat, to: nat) {
    from < |s| && to < |s| && from != to && s[from] > 1 && s[to] < maximum
  }

  /** The profile after some transfer. */
  ghost predicate IsTrial(s: seq<nat>, maximum: nat, trial: seq<nat>) {
    exists from: nat, to: nat :: Transfers(s, maximum, from, to) && trial == Sort(Fewer, Transfer(s, from, to))
  }

  lemma TwoReplaced(s: multiset<nat>, less: multiset<nat>, trial: multiset<nat>, a: nat, a': nat, b: nat, b': nat)
    requires less + multiset{a} == s + multiset{a'} && trial + multiset{b} == less + multiset{b'}
    ensures trial + multiset{a, b} == s + multiset{a', b'}
  {
    forall x: nat ensures (trial + multiset{a, b})[x] == (s + multiset{a', b'})[x] {
      assert (less + multiset{a})[x] == (s + multiset{a'})[x] && (trial + multiset{b})[x] == (less + multiset{b'})[x];
    }
  }

  lemma TransferIs(s: seq<nat>, from: nat, to: nat, a: nat, b: nat, a': nat, b': nat)
    requires from < |s| && to < |s| && from != to && s[from] == a == a' + 1 && s[to] + 1 == b + 1 == b'
    ensures multiset(Transfer(s, from, to)) + multiset{a, b} == multiset(s) + multiset{a', b'}
  {
    var less := s[from := a'];
    ReplacedMember(s, from, a');
    ReplacedMember(less, to, b');
    assert Transfer(s, from, to) == less[to := b'];
    TwoReplaced(multiset(s), multiset(less), multiset(less[to := b']), a, a', b, b');
  }

  /** One width loses a unit, another one gains it, and the widths are sorted again. */
  lemma TrialIs(s: seq<nat>, from: nat, to: nat, a: nat, b: nat, a': nat, b': nat)
    requires from < |s| && to < |s| && from != to && s[from] == a == a' + 1 && s[to] + 1 == b + 1 == b'
    ensures var trial := Sort(Fewer, Transfer(s, from, to));
      Ordered(trial) && multiset(trial) + multiset{a, b} == multiset(s) + multiset{a', b'}
  {
    FewerOrder();
    SortSorted(Fewer, Transfer(s, from, to));
    SortMultiset(Fewer, Transfer(s, from, to));
    TransferIs(s, from, to, a, b, a', b');
  }

  /** Moving one unit from the one pair to the other does not beat `current` by the tolerance. */
  ghost predicate NotBetter(s: seq<nat>, maximum: nat, score: Scoring, current: real, from: nat, to: nat) {
    Transfers(s, maximum, from, to) ==>
      score(PairWidths(Sort(Fewer, Transfer(s, from, to)))) + SCORE_TOLERANCE >= current
  }

  /** No transfer at all beats the profile by the tolerance. */
  ghost predicate LocallyBest(s: seq<nat>, maximum: nat, score: Scoring) {
    NoneBetter(s, maximum, score, score(PairWidths(s)))
  }

  ghost predicate ReceiversTried(s: seq<nat>, maximum: nat, score: Scoring, current: real, from: nat, n: nat) {
    forall to: nat :: to < |s| && 0 < n <= |s| && s[to] <= s[n - 1] ==> NotBetter(s, maximum, score, current, from, to)
  }

  ghost predicate DonorsTried(s: seq<nat>, maximum: nat, score: Scoring, current: real, n: nat) {
    forall from: nat, to: nat :: from < |s| && 0 < n <= |s| && s[from] <= s[n - 1] ==> NotBetter(s, maximum, score, current, from, to)
  }

  lemma SameWidthNotBetter(s: seq<nat>, maximum: nat, score: Scoring, current: real, from: nat, to: nat, from': nat, to': nat)
    requires from < |s| && to < |s| && from' < |s| && to' < |s| && from' != to'
    requires s[from] == s[from'] && s[to] == s[to'] && NotBetter(s, maximum, score, current, from', to')
    ensures NotBetter(s, maximum, score, current, from, to)
  {
    if from != to && s[from] > 1 && s[to] < maximum {
      SameWidthTransfer(s, from, to, from', to');
    }
  }

  /** Between two neighbouring widths of an ordered profile there is nothing. */
  lemma NextWidth(s: seq<nat>, n: nat, j: nat)
    requires Ordered(s) && n < |s| && j < |s| && s[j] <= s[n]
    ensures s[j] == s[n] || (n > 0 && s[j] <= s[n - 1])
    ensures s[j] == s[n] && (n == 0 || s[n] != s[n - 1]) ==> n <= j
  {
  }

  /** Trying one width of receivers settles all of them. */
  lemma ReceiverSettled(s: seq<nat>, maximum: nat, score: Scoring, current: real, from: nat, n: nat, actual: nat)
    requires Ordered(s) && from < |s| && n < |s| && ReceiversTried(s, maximum, score, current, from, n)
    requires n == 0 || s[n] != s[n - 1]
    requires actual < |s| ==> actual != from && s[actual] == s[n] && NotBetter(s, maximum, score, current, from, actual)
    requires actual >= |s| ==> maximum <= s[n] || (n == from && forall j :: from < j < |s| ==> s[j] != s[n])
    ensures ReceiversTried(s, maximum, score, current, from, n + 1)
  {
    forall to: nat | to < |s| && s[to] <= s[n] ensures NotBetter(s, maximum, score, current, from, to) {
      NextWidth(s, n, to);
      if s[to] == s[n] && actual < |s| {
        SameWidthNotBetter(s, maximum, score, current, from, to, from, actual);
      }
    }
  }

  lemma ReceiverRepeated(s: seq<nat>, maximum: nat, score: Scoring, current: real, from: nat, n: nat)
    requires 0 < n < |s| && s[n] == s[n - 1] && ReceiversTried(s, maximum, score, current, from, n)
    ensures ReceiversTried(s, maximum, score, current, from, n + 1)
  {
  }

  /** What does not beat a score does not beat a lower one. */
  lemma StillTried(s: seq<nat>, maximum: nat, score: Scoring, before: real, now: real, from: nat, n: nat)
    requires now <= before
    ensures ReceiversTried(s, maximum, score, before, from, n) ==> ReceiversTried(s, maximum, score, now, from, n)
    ensures DonorsTried(s, maximum, score, before, n) ==> DonorsTried(s, maximum, score, now, n)
  {
    forall donor: nat, to: nat | NotBetter(s, maximum, score, before, donor, to) ensures NotBetter(s, maximum, score, now, donor, to) {
    }
  }

  /** All transfers into the given donor's counterparts. */
  method TryReceivers(s: seq<nat>, from: nat, maximum: nat, score: Scoring, best0: seq<nat>, bestScore0: real,
                      ghost current: real, ghost pairs: nat, ghost half: nat)
    returns (best: seq<nat>, bestScore: real)
    requires Profile(s, pairs, half, maximum) && from < |s| && s[from] > 1 && current == score(PairWidths(s))
    requires BestSoFar(best0, bestScore0, current, pairs, half, maximum, score) && (best0 != [] ==> IsTrial(s, maximum, best0))
    ensures BestSoFar(best, bestScore, current, pairs, half, maximum, score) && bestScore <= bestScore0
    ensures best != [] ==> IsTrial(s, maximum, best)
    ensures ReceiversTried(s, maximum, score, bestScore, from, |s|)
  {
    best, bestScore := best0, bestScore0;
    for to := 0 to |s|
      invariant BestSoFar(best, bestScore, current, pairs, half, maximum, score) && bestScore <= bestScore0
      invariant best != [] ==> IsTrial(s, maximum, best)
      invariant ReceiversTried(s, maximum, score, bestScore, from, to)
    {
      if to > 0 && s[to] == s[to - 1] {
        ReceiverRepeated(s, maximum, score, bestScore, from, to);
      } else {
        ghost var before, actual := bestScore, 0;
        best, bestScore, actual := TryReceiver(s, from, to, maximum, score, best, bestScore, current, pairs, half);
        StillTried(s, maximum, score, before, bestScore, from, to);
        ReceiverSettled(s, maximum, score, bestScore, from, to, actual);
      }
    }
  }

  /** One width of receivers: a trial if there is a pair to receive, kept if it is the best so far. */
  method TryReceiver(s: seq<nat>, from: nat, to: nat, maximum: nat, score: Scoring, best0: seq<nat>, bestScore0: real,
                     ghost current: real, ghost pairs: nat, ghost half: nat)
    returns (best: seq<nat>, bestScore: real, ghost actual: nat)
    requires Profile(s, pairs, half, maximum) && from < |s| && to < |s| && s[from] > 1 && current == score(PairWidths(s))
    requires BestSoFar(best0, bestScore0, current, pairs, half, maximum, score) && (best0 != [] ==> IsTrial(s, maximum, best0))
    ensures BestSoFar(best, bestScore, current, pairs, half, maximum, score) && bestScore <= bestScore0
    ensures best != [] ==> IsTrial(s, maximum, best)
    ensures actual < |s| ==> actual != from && s[actual] == s[to] && NotBetter(s, maximum, score, bestScore, from, actual)
    ensures actual >= |s| ==> maximum <= s[to] || (to == from && forall j :: from < j < |s| ==> s[j] != s[to])
  {
    best, bestScore, actual := best0, bestScore0, |s|;
    if s[to] < maximum {
      var receiver := OtherPair(s, from, to);
      actual := receiver;
      if receiver < |s| {
        TransferProfile(s, pairs, half, maximum, from, receiver);
        var trial := Sort(Fewer, Transfer(s, from, receiver));
        if trial != s && score(PairWidths(trial)) + SCORE_TOLERANCE < bestScore {
          assert Transfers(s, maximum, from, receiver);
          best, bestScore := trial, score(PairWidths(trial));
        }
      }
    }
  }

  /** Trying one width of donors settles all of them. */
  lemma DonorSettled(s: seq<nat>, maximum: nat, score: Scoring, current: real, n: nat)
    requires Ordered(s) && n < |s| && DonorsTried(s, maximum, score, current, n)
    requires s[n] > 1 ==> ReceiversTried(s, maximum, score, current, n, |s|)
    ensures DonorsTried(s, maximum, score, current, n + 1)
  {
    forall from: nat, to: nat | from < |s| && s[from] <= s[n] ensures NotBetter(s, maximum, score, current, from, to) {
      NextWidth(s, n, from);
      if s[from] == s[n] && s[n] > 1 && to < |s| && from != to {
        var to' := if to == n then from else to;
        assert s[to'] <= s[|s| - 1];
        assert NotBetter(s, maximum, score, current, n, to');
        SameWidthNotBetter(s, maximum, score, current, from, to, n, to');
      }
    }
  }

  lemma DonorRepeated(s: seq<nat>, maximum: nat, score: Scoring, current: real, n: nat)
    requires 0 < n < |s| && s[n] == s[n - 1] && DonorsTried(s, maximum, score, current, n)
    ensures DonorsTried(s, maximum, score, current, n + 1)
  {
  }

  /** No transfer beats the score by the tolerance. */
  ghost predicate NoneBetter(s: seq<nat>, maximum: nat, score: Scoring, bound: real) {
    forall from: nat, to: nat :: NotBetter(s, maximum, score, bound, from, to)
  }

  /**
   One pass over all transfers between distinct widths: what it finds is the best of all transfers, up to the
   tolerance; it comes back empty only from a local optimum.
   */
  method BestTransfer(s: seq<nat>, maximum: nat, score: Scoring, current: real, ghost pairs: nat, ghost half: nat)
    returns (best: seq<nat>, bestScore: real)
    requires Profile(s, pairs, half, maximum) && current == score(PairWidths(s))
    ensures BestSoFar(best, bestScore, current, pairs, half, maximum, score)
    ensures best != [] ==> IsTrial(s, maximum, best)
    ensures NoneBetter(s, maximum, score, bestScore)
  {
    best, bestScore := [], current;
    for from := 0 to |s|
      invariant BestSoFar(best, bestScore, current, pairs, half, maximum, score)
      invariant best != [] ==> IsTrial(s, maximum, best)
      invariant DonorsTried(s, maximum, score, bestScore, from)
    {
      if from > 0 && s[from] == s[from - 1] {
        DonorRepeated(s, maximum, score, bestScore, from);
      } else {
        if s[from] > 1 {
          ghost var before := bestScore;
          best, bestScore := TryReceivers(s, from, maximum, score, best, bestScore, current, pairs, half);
          StillTried(s, maximum, score, before, bestScore, from, from);
        }
        DonorSettled(s, maximum, score, bestScore, from);
      }
    }
    AllTried(s, maximum, score, bestScore);
  }

  lemma AllTried(s: seq<nat>, maximum: nat, score: Scoring, bound: real)
    requires Ordered(s) && DonorsTried(s, maximum, score, bound, |s|)
    ensures NoneBetter(s, maximum, score, bound)
  {
    forall from: nat, to: nat ensures NotBetter(s, maximum, score, bound, from, to) {
      if from < |s| { assert s[from] <= s[|s| - 1]; }
    }
  }

  /** No transfer beats the profile by the tolerance, or sixteen were made that each did. */
  ghost predicate Climbed(s: seq<nat>, start: seq<nat>, maximum: nat, score: Scoring) {
    LocallyBest(s, maximum, score) || score(PairWidths(s)) + 0.000000000016 <= score(PairWidths(start))
  }

  /**
   The plan always covers half the dimensions with nonempty pairs within the maximum, sorted; and whatever the
   scoring, it is never worse than the nearly uniform profile it starts from.
   */
  method PlanPairedCapacities(d: nat, m: nat, maxSubspaceDimension: nat, score: Scoring) returns (r: Result<seq<nat>>, ghost passes: nat)
    requires d % 2 == 0 && m % 2 == 0 && 0 < m <= d
    ensures r.Err? <==> 0 < maxSubspaceDimension < (d + m - 1) / m
    ensures r.Err? ==> r.error == RuntimeError
    ensures r.Ok? ==>
      Profile(r.value, m / 2, d / 2, if maxSubspaceDimension == 0 then (d + m - 1) / m + 2 else maxSubspaceDimension)
    ensures r.Ok? ==> score(PairWidths(r.value)) <= score(PairWidths(InitialProfile(d / 2, m / 2)))
    ensures r.Ok? ==> passes <= 16 && score(PairWidths(r.value)) + passes as real * SCORE_TOLERANCE <= score(PairWidths(InitialProfile(d / 2, m / 2)))
    ensures r.Ok? && passes < 16 ==>
      LocallyBest(r.value, if maxSubspaceDimension == 0 then (d + m - 1) / m + 2 else maxSubspaceDimension, score)
    ensures r.Ok? ==> Climbed(r.value, InitialProfile(d / 2, m / 2),
                              if maxSubspaceDimension == 0 then (d + m - 1) / m + 2 else maxSubspaceDimension, score)
  {
    var pairs, half := m / 2, d / 2;
    var maximum := if maxSubspaceDimension == 0 then (d + m - 1) / m + 2 else maxSubspaceDimension;
    passes := 0;
    QuotientParts(half, pairs);
    CeilingOfPairs(half, pairs, half / pairs, half % pairs);
    assert 2 * half == d && 2 * pairs == m;
    if maximum < (d + m - 1) / m {
      return Err(RuntimeError), passes;
    }
    InitialIsProfile(half, pairs, maximum);
    var capacities := InitialProfile(half, pairs);
    var current := score(PairWidths(capacities));
    for pass := 0 to 16
      invariant Profile(capacities, pairs, half, maximum) && current == score(PairWidths(capacities))
      invariant current <= score(PairWidths(InitialProfile(half, pairs)))
      invariant passes == pass && current + passes as real * SCORE_TOLERANCE <= score(PairWidths(InitialProfile(half, pairs)))
    {
      var best, bestScore := BestTransfer(capacities, maximum, score, current, pairs, half);
      if |best| == 0 {
        break;
      }
      capacities, current := best, bestScore;
      passes := passes + 1;
    }
    return Ok(capacities), passes;
  }

  // ---------------------------------------------------------------- both groups of every pair

  function Doubled(s: seq<nat>): (r: seq<nat>)
    ensures |r| == 2 * |s|
  {
    if s == [] then [] else Doubled(s[..|s| - 1]) + [s[|s| - 1], s[|s| - 1]]
  }

  lemma {:induction false} DoubledAt(s: seq<nat>, i: nat)
    requires i < |s|
    ensures Doubled(s)[2 * i] == s[i] && Doubled(s)[2 * i + 1] == s[i]
  {
    if i < |s| - 1 { DoubledAt(s[..|s| - 1], i); }
  }

  lemma {:induction false} DoubledTotal(s: seq<nat>)
    ensures Total(Doubled(s)) == 2 * Total(s)
  {
    if s != [] {
      DoubledTotal(s[..|s| - 1]);
      var x := s[|s| - 1];
      TotalConcat(Doubled(s[..|s| - 1]), [x, x]);
      TotalTwice(x);
    }
  }

  lemma TotalTwice(x: nat)
    ensures Total([x, x]) == 2 * x
  {
    assert [x, x] == [x] + [x] && [x][..0] == [];
    TotalConcat([x], [x]);
    assert Total([x]) == x;
  }

  /** Doubling a sorted profile is sorting the doubled one: group widths come in even runs. */
  lemma DoubledSorted(s: seq<nat>)
    requires Ordered(s)
    ensures Sort(Fewer, Doubled(s)) == Doubled(s)
    ensures Ordered(Doubled(s))
  {
    FewerOrder();
    var t := Doubled(s);
    forall i, j | 0 <= i < j < |t| ensures t[i] <= t[j] {
      assert i == 2 * (i / 2) + i % 2 && j == 2 * (j / 2) + j % 2;
      DoubledAt(s, i / 2);
      DoubledAt(s, j / 2);
    }
    SortSorted(Fewer, t);
    SortMultiset(Fewer, t);
    SortedUnique(Fewer, Sort(Fewer, t), t);
  }
}
