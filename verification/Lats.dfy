/** get_lats of main.py: percentiles of a latency histogram. */
module Lats {
  import opened Totals

  /** One bucket of the histogram, in the order of the dict. */
  datatype Item = Item(idx: nat, count: nat)

  predicate DistinctBuckets(items: seq<Item>) { forall i, j :: 0 <= i < j < |items| ==> items[i].idx != items[j].idx }

  predicate Increasing(items: seq<Item>) { forall i, j :: 0 <= i < j < |items| ==> items[i].idx < items[j].idx }

  /** sum(lats): the sum of the keys, as iterating over a dict gives its keys. */
  function KeySum(items: seq<Item>): nat { SumOf((e: Item) => e.idx, items) }

  /** What was meant: the number of messages. */
  function CountSum(items: seq<Item>): nat { SumOf((e: Item) => e.count, items) }

  /** The number of messages in the buckets up to k. */
  function Below(k: nat): Item -> nat { (e: Item) => if e.idx <= k then e.count else 0 }

  function CountUpTo(items: seq<Item>, k: nat): nat { SumOf(Below(k), items) }

  predicate FirstByIdx(a: Item, b: Item) { a.idx <= b.idx }

  /** sorted(lats.items()) */
  function Sorted(items: seq<Item>): (r: seq<Item>)
    ensures multiset(r) == multiset(items)
  {
    SortBy(FirstByIdx, items)
  }

  function Pow(base: real, n: nat): real { if n == 0 then 1.0 else base * Pow(base, n - 1) }

  /** The first bucket among the first n whose cumulative count reaches need. */
  function FirstReach(sorted: seq<Item>, n: nat, need: real): (r: Option<nat>)
    requires n <= |sorted|
  {
    if n == 0 then None else
    var before := FirstReach(sorted, n - 1, need);
    if before.Some? then before
    else if CountSum(sorted[..n]) as real >= need then Some(sorted[n - 1].idx) else None
  }

  function Answer(base: real, bucket: Option<nat>): Option<real> {
    match bucket
    case None => None
    case Some(k) => Some(Pow(base, k))
  }

  /** all_mess * perc */
  function Need(total: nat, perc: real): real { total as real * perc }

  lemma SortedSize(items: seq<Item>)
    ensures |Sorted(items)| == |items|
  {
    assert |Sorted(items)| == |multiset(Sorted(items))| && |items| == |multiset(items)|;
  }

  /** The bucket get_lats finds for a percentile when it takes total for the number of messages. */
  function Bucket(items: seq<Item>, total: nat, perc: real): Option<nat> {
    FirstReach(Sorted(items), |Sorted(items)|, Need(total, perc))
  }

  /** What get_lats returns for a percentile: None where its slot is never filled. */
  function Lat(items: seq<Item>, base: real, perc: real): Option<real> {
    if KeySum(items) == 0 then Some(0.0) else Answer(base, Bucket(items, KeySum(items), perc))
  }

  /** What was meant: the same with the number of messages as the total. */
  function IntendedLat(items: seq<Item>, base: real, perc: real): Option<real> {
    if CountSum(items) == 0 then Some(0.0) else Answer(base, Bucket(items, CountSum(items), perc))
  }

  /** The slots after the first i buckets. */
  ghost predicate FilledUpTo(res: seq<Option<real>>, sorted: seq<Item>, i: nat, total: nat, base: real,
      percs: seq<real>)
    requires i <= |sorted|
  {
    |res| == |percs| &&
    forall r :: 0 <= r < |percs| ==> res[r] == Answer(base, FirstReach(sorted, i, Need(total, percs[r])))
  }

  predicate NonDecreasing(percs: seq<real>) { forall i, j :: 0 <= i < j < |percs| ==> percs[i] <= percs[j] }

  /** get_lats, with its two loops: None for the AssertionError of percentiles out of order. */
  method GetLats(lats: seq<Item>, logBase: real, percs: seq<real>) returns (slots: Option<seq<Option<real>>>)
    ensures slots.None? <==> KeySum(lats) != 0 && !NonDecreasing(percs)
    ensures slots.Some? ==> |slots.value| == |percs|
    ensures slots.Some? ==> forall r :: 0 <= r < |percs| ==> slots.value[r] == Lat(lats, logBase, percs[r])
  {
    hide Sorted, CountSum, FilledUpTo;
    var allMess := KeySum(lats);
    if allMess == 0 {
      return Some(seq(|percs|, _ => Some(0.0)));
    }
    if !NonDecreasing(percs) {
      return None;
    }
    var curr := 0;
    var res := seq(|percs|, _ => None);
    var sorted := Sorted(lats);
    NothingFilled(res, sorted, allMess, logBase, percs);
    for i := 0 to |sorted|
      invariant curr == CountSum(sorted[..i])
      invariant FilledUpTo(res, sorted, i, allMess, logBase, percs)
    {
      CountSumStep(sorted, i);
      curr := curr + sorted[i].count;
      res := FillSlots(res, curr, sorted, i, allMess, logBase, percs);
    }
    AllFilledUpTo(res, sorted, allMess, logBase, percs);
    slots := Some(res);
  }

  lemma NothingFilled(res: seq<Option<real>>, sorted: seq<Item>, total: nat, base: real, percs: seq<real>)
    requires |res| == |percs| && forall r :: 0 <= r < |res| ==> res[r] == None
    ensures FilledUpTo(res, sorted, 0, total, base, percs) && CountSum(sorted[..0]) == 0
  {
  }

  lemma AllFilledUpTo(res: seq<Option<real>>, sorted: seq<Item>, total: nat, base: real, percs: seq<real>)
    requires FilledUpTo(res, sorted, |sorted|, total, base, percs)
    ensures |res| == |percs|
    ensures forall r :: 0 <= r < |percs| ==> res[r] == Answer(base, FirstReach(sorted, |sorted|, Need(total, percs[r])))
  {
  }

  /** The inner loop: fills the slots that bucket i reaches first. */
  method FillSlots(res0: seq<Option<real>>, curr: nat, sorted: seq<Item>, i: nat, allMess: nat, logBase: real,
      percs: seq<real>)
    returns (res: seq<Option<real>>)
    requires i < |sorted| && curr == CountSum(sorted[..i + 1])
    requires FilledUpTo(res0, sorted, i, allMess, logBase, percs)
    ensures FilledUpTo(res, sorted, i + 1, allMess, logBase, percs)
  {
    hide Need, CountSum, Pow;
    res := res0;
    for r := 0 to |percs|
      invariant |res| == |percs|
      invariant forall q :: r <= q < |percs| ==> res[q] == res0[q]
      invariant forall q :: 0 <= q < r ==> res[q] == Answer(logBase, FirstReach(sorted, i + 1, Need(allMess, percs[q])))
    {
      if curr as real >= Need(allMess, percs[r]) && res[r].None? {
        res := res[r := Some(Pow(logBase, sorted[i].idx))];
      }
    }
  }

  lemma CountSumStep(items: seq<Item>, i: nat)
    requires i < |items|
    ensures CountSum(items[..i + 1]) == CountSum(items[..i]) + items[i].count
  {
    var count := (e: Item) => e.count;
    assert items[..i + 1] == items[..i] + [items[i]];
    SumOfAppend(count, items[..i], [items[i]]);
    assert SumOf(count, [items[i]]) == items[i].count + SumOf(count, []);
  }

  // ---------------------------------------------------------------- what an answer means

  /** The cumulative count of bucket k reaches need. */
  predicate Reaches(items: seq<Item>, k: nat, need: real) { CountUpTo(items, k) as real >= need }

  predicate HasBucket(items: seq<Item>, k: nat) { exists i :: 0 <= i < |items| && items[i].idx == k }

  /** k is the least bucket whose cumulative count reaches need. */
  ghost predicate IsLeastBucket(items: seq<Item>, k: nat, need: real) {
    HasBucket(items, k) && Reaches(items, k, need) &&
    forall j: nat :: HasBucket(items, j) && j < k ==> !Reaches(items, j, need)
  }

  lemma SortedSum(f: Item -> nat, items: seq<Item>)
    ensures SumOf(f, Sorted(items)) == SumOf(f, items)
  {
    SortSum(FirstByIdx, f, items);
  }

  lemma SortedBuckets(items: seq<Item>, k: nat)
    ensures HasBucket(Sorted(items), k) <==> HasBucket(items, k)
  {
    var s := Sorted(items);
    if HasBucket(s, k) {
      var i :| 0 <= i < |s| && s[i].idx == k;
      assert s[i] in multiset(s) && s[i] in multiset(items) && s[i] in items;
    }
    if HasBucket(items, k) {
      var i :| 0 <= i < |items| && items[i].idx == k;
      assert items[i] in multiset(items) && items[i] in multiset(s) && items[i] in s;
    }
  }

  lemma IncreasingCons(e: Item, items: seq<Item>)
    requires Increasing(items) && forall i :: 0 <= i < |items| ==> e.idx < items[i].idx
    ensures Increasing([e] + items)
  {
    var all := [e] + items;
    forall i, j | 0 <= i < j < |all| ensures all[i].idx < all[j].idx {
      assert all[j] == items[j - 1] && (i > 0 ==> all[i] == items[i - 1]);
    }
  }

  lemma {:induction false} InsertIncreasing(e: Item, items: seq<Item>)
    requires Increasing(items) && !HasBucket(items, e.idx)
    ensures Increasing(InsertBy(FirstByIdx, e, items))
  {
    if items == [] || e.idx <= items[0].idx {
      IncreasingCons(e, items);
    } else {
      var tail := items[1..];
      assert forall i :: 0 <= i < |tail| ==> tail[i] == items[i + 1];
      InsertIncreasing(e, tail);
      var r := InsertBy(FirstByIdx, e, tail);
      forall i | 0 <= i < |r| ensures r[i].idx > items[0].idx {
        assert r[i] in multiset(r) && (r[i] == e || r[i] in tail);
      }
      IncreasingCons(items[0], r);
    }
  }

  lemma {:induction false} SortedIncreasing(items: seq<Item>)
    requires DistinctBuckets(items)
    ensures Increasing(Sorted(items))
  {
    if items != [] {
      var tail := items[1..];
      SortedIncreasing(tail);
      SortedBuckets(tail, items[0].idx);
      InsertIncreasing(items[0], Sorted(tail));
    }
  }

  // ---------------------------------------------------------------- prefixes of the sorted histogram

  /** In increasing order, the count up to the bucket at position i is the count of the first i + 1 buckets. */
  lemma {:induction false} PrefixCount(s: seq<Item>, i: nat)
    requires Increasing(s) && i < |s|
    ensures CountUpTo(s, s[i].idx) == CountSum(s[..i + 1])
  {
    var k := s[i].idx;
    assert s == s[..i + 1] + s[i + 1..];
    SumOfAppend(Below(k), s[..i + 1], s[i + 1..]);
    SumIsCount(s[..i + 1], k);
    SumIsZero(s[i + 1..], k);
  }

  lemma {:induction false} SumIsCount(s: seq<Item>, k: nat)
    requires forall i :: 0 <= i < |s| ==> s[i].idx <= k
    ensures SumOf(Below(k), s) == CountSum(s)
  {
    if s != [] {
      SumIsCount(s[1..], k);
    }
  }

  lemma {:induction false} SumIsZero(s: seq<Item>, k: nat)
    requires forall i :: 0 <= i < |s| ==> s[i].idx > k
    ensures SumOf(Below(k), s) == 0
  {
    if s != [] {
      SumIsZero(s[1..], k);
    }
  }

  lemma {:induction false} PrefixGrows(s: seq<Item>, i: nat, j: nat)
    requires i <= j <= |s|
    ensures CountSum(s[..i]) <= CountSum(s[..j])
  {
    if i < j {
      PrefixGrows(s, i, j - 1);
      CountSumStep(s, j - 1);
    }
  }

  /** The first j buckets are the shortest prefix that reaches need. */
  ghost predicate StopsAt(s: seq<Item>, j: nat, need: real) {
    0 < j <= |s| && CountSum(s[..j]) as real >= need && forall i :: 0 < i < j ==> (CountSum(s[..i]) as real) < need
  }

  lemma {:induction false} FirstReachAt(s: seq<Item>, n: nat, need: real) returns (j: nat)
    requires n <= |s|
    ensures FirstReach(s, n, need).None? ==> forall j :: 0 < j <= n ==> (CountSum(s[..j]) as real) < need
    ensures FirstReach(s, n, need).Some? ==>
      StopsAt(s, j, need) && j <= n && FirstReach(s, n, need).value == s[j - 1].idx
  {
    hide CountSum;
    j := 0;
    if n > 0 {
      j := FirstReachAt(s, n - 1, need);
      if FirstReach(s, n - 1, need).None? {
        j := n;
      }
    }
  }

  /** Sorting does not change what the buckets hold. */
  lemma SortedCount(items: seq<Item>, i: nat)
    requires DistinctBuckets(items) && i < |Sorted(items)|
    ensures CountUpTo(items, Sorted(items)[i].idx) == CountSum(Sorted(items)[..i + 1])
    ensures HasBucket(items, Sorted(items)[i].idx)
  {
    hide Sorted, CountSum;
    var k := Sorted(items)[i].idx;
    SortedIncreasing(items);
    PrefixCount(Sorted(items), i);
    SortedSum(Below(k), items);
    SortedBuckets(items, k);
  }

  lemma BucketPosition(items: seq<Item>, k: nat) returns (i: nat)
    requires HasBucket(items, k)
    ensures i < |Sorted(items)| && Sorted(items)[i].idx == k
  {
    SortedBuckets(items, k);
    i :| 0 <= i < |Sorted(items)| && Sorted(items)[i].idx == k;
  }

  // ---------------------------------------------------------------- theorems

  lemma BucketIsLeastIfFound(items: seq<Item>, total: nat, perc: real)
    requires DistinctBuckets(items) && Bucket(items, total, perc).Some?
    ensures IsLeastBucket(items, Bucket(items, total, perc).value, Need(total, perc))
  {
    hide Sorted, CountSum, CountUpTo, Need, HasBucket;
    var s, need := Sorted(items), Need(total, perc);
    var j := FirstReachAt(s, |s|, need);
    SortedCount(items, j - 1);
    SortedIncreasing(items);
    forall k: nat | HasBucket(items, k) && k < s[j - 1].idx ensures !Reaches(items, k, need) {
      var i := BucketPosition(items, k);
      SortedCount(items, i);
    }
  }

  /** The answer is the least bucket whose cumulative count reaches the percentile, and there is none if none does. */
  lemma BucketIsLeast(items: seq<Item>, total: nat, perc: real, k: nat)
    requires DistinctBuckets(items)
    ensures Bucket(items, total, perc) == Some(k) <==> IsLeastBucket(items, k, Need(total, perc))
  {
    hide Sorted, CountSum, CountUpTo, Need, HasBucket, DistinctBuckets;
    var s, need := Sorted(items), Need(total, perc);
    if Bucket(items, total, perc).Some? {
      BucketIsLeastIfFound(items, total, perc);
    } else if IsLeastBucket(items, k, need) {
      var j := FirstReachAt(s, |s|, need);
      var i := BucketPosition(items, k);
      SortedCount(items, i);
    }
  }

  /** A slot stays empty exactly when even all messages together do not reach its share of the total. */
  lemma FoundIff(items: seq<Item>, total: nat, perc: real)
    requires items != []
    ensures Bucket(items, total, perc).Some? <==> CountSum(items) as real >= Need(total, perc)
  {
    hide Sorted, Need;
    var s, need := Sorted(items), Need(total, perc);
    var j := FirstReachAt(s, |s|, need);
    SortedSize(items);
    SortedSum((e: Item) => e.count, items);
    assert s[..|s|] == s;
    if Bucket(items, total, perc).Some? {
      PrefixGrows(s, j, |s|);
    }
  }

  lemma LatIsFilledIff(items: seq<Item>, base: real, perc: real)
    ensures Lat(items, base, perc).Some? <==>
            KeySum(items) == 0 || CountSum(items) as real >= KeySum(items) as real * perc
  {
    if KeySum(items) != 0 {
      FoundIff(items, KeySum(items), perc);
    }
  }

  /** With the number of messages as the total, every percentile is answered. */
  lemma CountsFillEverySlot(items: seq<Item>, perc: real)
    requires items != [] && perc <= 1.0
    ensures Bucket(items, CountSum(items), perc).Some?
  {
    hide Need, CountSum, Bucket;
    FoundIff(items, CountSum(items), perc);
    NeedIsLess(CountSum(items), perc);
  }

  lemma NeedIsLess(total: nat, perc: real)
    requires perc <= 1.0
    ensures Need(total, perc) <= total as real
  {
    var t := total as real;
    assert t * (1.0 - perc) >= 0.0;
    assert t * perc == t - t * (1.0 - perc);
  }

  lemma FirstReachMonotone(s: seq<Item>, n: nat, need1: real, need2: real)
    requires Increasing(s) && n <= |s| && need1 <= need2 && FirstReach(s, n, need2).Some?
    ensures FirstReach(s, n, need1).Some? && FirstReach(s, n, need1).value <= FirstReach(s, n, need2).value
  {
    hide CountSum;
    var j1 := FirstReachAt(s, n, need1);
    var j2 := FirstReachAt(s, n, need2);
    assert CountSum(s[..j2]) as real >= need1;
    if FirstReach(s, n, need1).Some? && j1 > j2 {
      assert false;
    }
  }

  /** A higher percentile never has a lower answer, and if it has one, so has a lower percentile. */
  lemma BucketsAreMonotone(items: seq<Item>, total: nat, perc1: real, perc2: real)
    requires DistinctBuckets(items) && perc1 <= perc2 && Bucket(items, total, perc2).Some?
    ensures Bucket(items, total, perc1).Some? && Bucket(items, total, perc1).value <= Bucket(items, total, perc2).value
  {
    hide Sorted, FirstReach, Increasing;
    SortedIncreasing(items);
    assert Need(total, perc1) <= Need(total, perc2);
    FirstReachMonotone(Sorted(items), |Sorted(items)|, Need(total, perc1), Need(total, perc2));
  }

  lemma {:induction false} PowMonotone(base: real, m: nat, n: nat)
    requires base >= 1.0 && m <= n
    ensures 1.0 <= Pow(base, m) <= Pow(base, n)
  {
    if n > 0 {
      if m == n {
        PowMonotone(base, m - 1, n - 1);
      } else {
        PowMonotone(base, m, n - 1);
      }
      PowStep(base, Pow(base, n - 1));
    }
  }

  /** With base 2 the answer for bucket k is the least latency that is counted in it. */
  lemma {:induction false} PowOfTwo(k: nat)
    ensures Pow(2.0, k) == Pow2(k) as real
  {
    if k > 0 {
      PowOfTwo(k - 1);
    }
  }

  lemma PowStep(base: real, p: real)
    requires base >= 1.0 && p >= 1.0
    ensures base * p >= p
  {
  }

  /** What get_lats returns grows with the percentile. */
  lemma LatsAreMonotone(items: seq<Item>, base: real, perc1: real, perc2: real)
    requires DistinctBuckets(items) && base >= 1.0 && perc1 <= perc2 && Lat(items, base, perc2).Some?
    ensures Lat(items, base, perc1).Some? && Lat(items, base, perc1).value <= Lat(items, base, perc2).value
  {
    hide Pow, Bucket, DistinctBuckets;
    if KeySum(items) != 0 {
      BucketsAreMonotone(items, KeySum(items), perc1, perc2);
      PowMonotone(base, Bucket(items, KeySum(items), perc1).value, Bucket(items, KeySum(items), perc2).value);
    }
  }

  /** No cumulative count lies between the shares of two totals. */
  ghost predicate NoCountBetween(items: seq<Item>, total1: nat, total2: nat, perc: real) {
    forall k: nat :: HasBucket(items, k) ==>
      (Reaches(items, k, Need(total1, perc)) <==> Reaches(items, k, Need(total2, perc)))
  }

  /** Two totals give the same bucket exactly when no cumulative count lies between their shares. */
  lemma SameBucketIff(items: seq<Item>, total1: nat, total2: nat, perc: real)
    requires DistinctBuckets(items)
    ensures Bucket(items, total1, perc) == Bucket(items, total2, perc) <==> NoCountBetween(items, total1, total2, perc)
  {
    hide Bucket, Need, DistinctBuckets, HasBucket, CountUpTo;
    var b1, b2 := Bucket(items, total1, perc), Bucket(items, total2, perc);
    if b1 == b2 {
      forall k: nat | HasBucket(items, k)
        ensures Reaches(items, k, Need(total1, perc)) <==> Reaches(items, k, Need(total2, perc))
      {
        ReachesIffAtLeast(items, total1, perc, k);
        ReachesIffAtLeast(items, total2, perc, k);
      }
    } else if NoCountBetween(items, total1, total2, perc) {
      if b1.Some? {
        BucketIsLeast(items, total1, perc, b1.value);
        BucketIsLeast(items, total2, perc, b1.value);
      } else {
        BucketIsLeast(items, total1, perc, b2.value);
        BucketIsLeast(items, total2, perc, b2.value);
      }
    }
  }

  lemma ReachesIffAtLeast(items: seq<Item>, total: nat, perc: real, k: nat)
    requires DistinctBuckets(items) && HasBucket(items, k)
    ensures Reaches(items, k, Need(total, perc)) <==>
            Bucket(items, total, perc).Some? && Bucket(items, total, perc).value <= k
  {
    hide Sorted, CountSum, CountUpTo, Need, HasBucket, DistinctBuckets;
    var s, need := Sorted(items), Need(total, perc);
    SortedIncreasing(items);
    var i := BucketPosition(items, k);
    SortedCount(items, i);
    var j := FirstReachAt(s, |s|, need);
    if Bucket(items, total, perc).Some? {
      if i < j - 1 {
        assert s[i].idx < s[j - 1].idx;
      } else {
        PrefixGrows(s, j, i + 1);
        assert i > j - 1 ==> s[j - 1].idx < s[i].idx;
      }
    }
  }

  lemma {:induction false} PowStrict(base: real, m: nat, n: nat)
    requires base > 1.0 && m < n
    ensures Pow(base, m) < Pow(base, n)
  {
    PowMonotone(base, m, n - 1);
    PowMonotone(base, 0, n - 1);
    PowGrows(base, Pow(base, n - 1));
  }

  lemma PowGrows(base: real, p: real)
    requires base > 1.0 && p >= 1.0
    ensures base * p > p
  {
  }

  /** Different buckets have different answers, and no answer is zero. */
  lemma AnswersDiffer(base: real, b1: Option<nat>, b2: Option<nat>)
    requires base > 1.0
    ensures Answer(base, b1) == Answer(base, b2) <==> b1 == b2
    ensures Answer(base, b1) != Some(0.0)
  {
    hide Pow;
    if b1.Some? {
      PowMonotone(base, b1.value, b1.value);
      if b2.Some? && b1.value < b2.value {
        PowStrict(base, b1.value, b2.value);
      } else if b2.Some? && b2.value < b1.value {
        PowStrict(base, b2.value, b1.value);
      }
    }
  }

  /**
   What get_lats returns is what was meant exactly when the two totals are zero together and, if they are not, no
   cumulative count lies between their shares.
   */
  lemma LatIsIntendedIff(items: seq<Item>, base: real, perc: real)
    requires DistinctBuckets(items) && base > 1.0
    ensures Lat(items, base, perc) == IntendedLat(items, base, perc) <==>
      (KeySum(items) == 0 <==> CountSum(items) == 0) &&
      (KeySum(items) == 0 || NoCountBetween(items, KeySum(items), CountSum(items), perc))
  {
    hide Bucket, Answer, NoCountBetween, DistinctBuckets, KeySum, CountSum;
    SameBucketIff(items, KeySum(items), CountSum(items), perc);
    AnswersDiffer(base, Bucket(items, KeySum(items), perc), Bucket(items, CountSum(items), perc));
    AnswersDiffer(base, Bucket(items, CountSum(items), perc), None);
  }

  /** With bucket 0 alone the keys sum to zero: the answer is zero, where one, base to the power of zero, was meant. */
  lemma BucketZeroAloneIsWrong(base: real, count: nat, perc: real)
    requires count > 0 && base > 1.0 && perc <= 1.0
    ensures Lat([Item(0, count)], base, perc) == Some(0.0) && IntendedLat([Item(0, count)], base, perc) == Some(1.0)
  {
    var items := [Item(0, count)];
    OneItemSums(0, count);
    CountsFillEverySlot(items, perc);
    var b := Bucket(items, CountSum(items), perc);
    BucketIsLeast(items, CountSum(items), perc, b.value);
    assert b.value == 0;
  }

  lemma OneItemSums(k: nat, count: nat)
    ensures KeySum([Item(k, count)]) == k && CountSum([Item(k, count)]) == count
  {
    SumOfOne((e: Item) => e.idx, Item(k, count));
    SumOfOne((e: Item) => e.count, Item(k, count));
  }

  lemma SumOfOne<T>(f: T -> nat, x: T)
    ensures SumOf(f, [x]) == f(x)
  {
    assert SumOf(f, [x]) == f(x) + SumOf(f, []);
  }

  /** The sum of the keys is not the number of messages: a slot can stay empty, */
  lemma KeySumLeavesSlotEmpty(base: real, k: nat, count: nat, perc: real)
    requires k > 0 && perc <= 1.0
    ensures Lat([Item(k, count)], base, perc) == None <==> (count as real) < k as real * perc
    ensures IntendedLat([Item(k, count)], base, perc).Some?
  {
    OneItemSums(k, count);
    LatIsFilledIff([Item(k, count)], base, perc);
    CountsFillEverySlot([Item(k, count)], perc);
  }

  /** or hold a bucket that is too low: here the median of a hundred messages, two of them in bucket 1. */
  lemma KeySumFindsLowerMedian()
    ensures var items := [Item(1, 2), Item(2, 98)];
      Bucket(items, KeySum(items), 0.5) == Some(1) && Bucket(items, CountSum(items), 0.5) == Some(2)
  {
    var items := [Item(1, 2), Item(2, 98)];
    assert items[1..] == [Item(2, 98)];
    OneItemSums(2, 98);
    OneItemSums(1, 2);
    assert CountSum(items) == 100 && KeySum(items) == 3;
    TwoItems(items, 3, 0.5);
    TwoItems(items, 100, 0.5);
  }

  lemma TwoItems(items: seq<Item>, total: nat, perc: real)
    requires items == [Item(1, 2), Item(2, 98)]
    ensures Need(total, perc) <= 2.0 ==> Bucket(items, total, perc) == Some(1)
    ensures 2.0 < Need(total, perc) <= 100.0 ==> Bucket(items, total, perc) == Some(2)
  {
    hide Need, Bucket;
    assert DistinctBuckets(items);
    assert items[1..] == [Item(2, 98)];
    SumOfOne(Below(1), Item(2, 98));
    SumOfOne(Below(2), Item(2, 98));
    assert CountUpTo(items, 1) == 2 && CountUpTo(items, 2) == 100;
    assert items[0].idx == 1 && items[1].idx == 2;
    assert HasBucket(items, 1) && HasBucket(items, 2);
    hide CountUpTo;
    BucketIsLeast(items, total, perc, 1);
    BucketIsLeast(items, total, perc, 2);
  }
}
