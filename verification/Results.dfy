/** run_test of server.cpp around the workers: who gets which socket, and how the results are put together. */
module Results {
  import opened Totals
  import opened Kernel
  import opened Rotation

  // ---------------------------------------------------------------- partition

  /** The sockets whose turn is that of worker j, in order. */
  function Share(fds: seq<int>, workers: nat, j: nat): seq<int>
    requires workers > 0
  {
    if fds == [] then []
    else
      var n := |fds| - 1;
      Share(fds[..n], workers, j) + (if Turn(n, workers) == j then [fds[n]] else [])
  }

  lemma {:induction false} ShareSize(fds: seq<int>, workers: nat, j: nat)
    requires workers > 0
    ensures |Share(fds, workers, j)| == Uses(|fds|, workers, j)
  {
    if fds != [] {
      ShareSize(fds[..|fds| - 1], workers, j);
    }
  }

  /** Socket i goes to the worker whose turn i is, and to no other. */
  lemma {:induction false} ShareMembers(fds: seq<int>, workers: nat, j: nat, x: int)
    requires workers > 0
    ensures x in Share(fds, workers, j) <==> exists i :: 0 <= i < |fds| && fds[i] == x && Turn(i, workers) == j
  {
    if fds != [] {
      var n := |fds| - 1;
      ShareMembers(fds[..n], workers, j, x);
      if x in Share(fds[..n], workers, j) {
        var i :| 0 <= i < n && fds[..n][i] == x && Turn(i, workers) == j;
        assert fds[i] == x;
      }
      if i :| 0 <= i < |fds| && fds[i] == x && Turn(i, workers) == j {
        if i < n { assert fds[..n][i] == x; }
      }
    }
  }

  datatype Setup = DivisionByZero | NoSelector | AddFailed | Assigned(capacity: nat, shares: seq<seq<int>>)

  ghost predicate Partitioned(fds: seq<int>, workers: nat, capacity: nat, shares: seq<seq<int>>) {
    && workers > 0 && |shares| == workers
    && forall j :: 0 <= j < workers ==> shares[j] == Share(fds, workers, j) && |shares[j]| <= capacity
  }

  /** The calls that create n selectors, and those that register the given sockets. */
  function Creations(n: nat): seq<Answer> { seq(n, _ => Answer(Create, -1, true)) }

  function Registrations(fds: seq<int>): (r: seq<Answer>)
    ensures |r| == |fds|
  {
    seq(|fds|, i requires 0 <= i < |fds| => Answer(Register, fds[i], true))
  }

  /** The loop that creates the selectors. */
  method CreateSelectors(n: nat, net: Sockets) returns (ok: bool)
    modifies net
    ensures if ok then net.answers == old(net.answers) + Creations(n)
      else |net.answers| > old(|net.answers|) && net.answers[|net.answers| - 1] == Answer(Create, -1, false)
  {
    assert old(net.answers) + Creations(0) == old(net.answers);
    for i := 0 to n
      invariant net.answers == old(net.answers) + Creations(i)
    {
      ok := net.Try(Create, -1);
      if !ok {
        return;
      }
      assert Creations(i + 1) == Creations(i) + [Answer(Create, -1, true)];
    }
    ok := true;
  }

  /** Lines 507-522: how many workers, how large their event arrays, and which sockets each selector gets. */
  method Assign(fds: seq<int>, numConn: nat, workerThreads: nat, net: Sockets) returns (s: Setup)
    requires |fds| == numConn && workerThreads > 0
    modifies net
    ensures s.DivisionByZero? <==> numConn == 0
    ensures s.NoSelector? ==>
      |net.answers| > old(|net.answers|) && net.answers[|net.answers| - 1] == Answer(Create, -1, false)
    ensures s.AddFailed? ==>
      && |net.answers| > old(|net.answers|)
      && net.answers[|net.answers| - 1].deed == Register && !net.answers[|net.answers| - 1].ok
    ensures s.Assigned? ==>
      var workers := if numConn < workerThreads then numConn else workerThreads;
      && net.answers == old(net.answers) + Creations(workers) + Registrations(fds)
      && s.capacity == numConn / workers + 1 && Partitioned(fds, workers, s.capacity, s.shares)
  {
    hide Creations, Registrations, Share;
    var workers := if numConn < workerThreads then numConn else workerThreads;
    if workers == 0 {
      return DivisionByZero;
    }
    var capacity := numConn / workers + 1;
    var created := CreateSelectors(workers, net);
    if !created {
      return NoSelector;
    }
    var added, shares := ShareOut(fds, workers, net);
    if !added {
      return AddFailed;
    }
    SharesFit(fds, workers);
    s := Assigned(capacity, shares);
  }

  lemma SharesFit(fds: seq<int>, workers: nat)
    requires workers > 0
    ensures forall j :: 0 <= j < workers ==> |Share(fds, workers, j)| <= |fds| / workers + 1
  {
    forall j | 0 <= j < workers ensures |Share(fds, workers, j)| <= |fds| / workers + 1 {
      ShareSize(fds, workers, j);
      Fair(|fds|, workers, j);
      Division(|fds|, workers);
    }
  }

  /** The loop that registers the sockets in turn. */
  method ShareOut(fds: seq<int>, workers: nat, net: Sockets) returns (ok: bool, shares: seq<seq<int>>)
    requires workers > 0
    modifies net
    ensures if ok then net.answers == old(net.answers) + Registrations(fds)
      else |net.answers| > old(|net.answers|)
    ensures !ok ==> net.answers[|net.answers| - 1].deed == Register && !net.answers[|net.answers| - 1].ok
    ensures ok ==> |shares| == workers && forall j :: 0 <= j < workers ==> shares[j] == Share(fds, workers, j)
  {
    hide Registrations;
    ghost var answers := net.answers;
    shares := seq(workers, _ => []);
    NoRegistrations(answers, fds);
    var idx := 0;
    while idx < |fds|
      invariant 0 <= idx <= |fds| && |shares| == workers
      invariant forall j :: 0 <= j < workers ==> shares[j] == Share(fds[..idx], workers, j)
      invariant net.answers == answers + Registrations(fds[..idx])
    {
      Division(idx, workers);
      var t := idx % workers;
      ok := net.Try(Register, fds[idx]);
      if !ok { return; }
      OneRegistration(answers, fds, idx);
      assert fds[..idx + 1][..idx] == fds[..idx];
      shares := shares[t := shares[t] + [fds[idx]]];
      idx := idx + 1;
    }
    assert fds[..idx] == fds;
    ok := true;
  }

  lemma NoRegistrations(answers: seq<Answer>, fds: seq<int>)
    ensures answers + Registrations(fds[..0]) == answers
  {
  }

  lemma OneRegistration(answers: seq<Answer>, fds: seq<int>, i: nat)
    requires i < |fds|
    ensures answers + Registrations(fds[..i + 1]) ==
      answers + Registrations(fds[..i]) + [Answer(Register, fds[i], true)]
  {
    assert Registrations(fds[..i + 1]) == Registrations(fds[..i]) + [Answer(Register, fds[i], true)];
  }

  /** Every socket is in exactly one share, and nothing else is in any. */
  lemma EverySocketHasOneWorker(fds: seq<int>, workers: nat, capacity: nat, shares: seq<seq<int>>, i: nat)
    requires Partitioned(fds, workers, capacity, shares) && i < |fds|
    requires Distinct(fds)
    ensures forall j :: 0 <= j < workers ==> (fds[i] in shares[j] <==> j == Turn(i, workers))
    ensures forall j, x :: 0 <= j < workers && x in shares[j] ==> x in fds
  {
    forall j | 0 <= j < workers ensures fds[i] in shares[j] <==> j == Turn(i, workers) {
      ShareMembers(fds, workers, j, fds[i]);
    }
    forall j, x | 0 <= j < workers && x in shares[j] ensures x in fds {
      ShareMembers(fds, workers, j, x);
    }
  }

  function Length(share: seq<int>): nat { |share| }

  function Shares(fds: seq<int>, workers: nat): (r: seq<seq<int>>)
    requires workers > 0
    ensures |r| == workers && forall j :: 0 <= j < workers ==> r[j] == Share(fds, workers, j)
  {
    seq(workers, j requires 0 <= j < workers => Share(fds, workers, j))
  }

  lemma {:induction false} NothingToShare(shares: seq<seq<int>>)
    requires forall j :: 0 <= j < |shares| ==> shares[j] == []
    ensures SumOf(Length, shares) == 0
  {
    if shares != [] {
      NothingToShare(shares[1..]);
    }
  }

  /** The shares together are as large as the list. */
  lemma {:induction false} SharesCover(fds: seq<int>, workers: nat)
    requires workers > 0
    ensures SumOf(Length, Shares(fds, workers)) == |fds|
  {
    if fds == [] {
      NothingToShare(Shares(fds, workers));
    } else {
      var n := |fds| - 1;
      var before, t := Shares(fds[..n], workers), Turn(n, workers);
      SharesCover(fds[..n], workers);
      SumOfUpdate(Length, before, t, before[t] + [fds[n]]);
      forall j | 0 <= j < workers ensures Shares(fds, workers)[j] == before[t := before[t] + [fds[n]]][j] {
        assert before[j] + [] == before[j];
      }
      assert Shares(fds, workers) == before[t := before[t] + [fds[n]]];
    }
  }

  lemma {:induction false} ShareDistinct(fds: seq<int>, workers: nat, j: nat)
    requires workers > 0 && Distinct(fds)
    ensures Distinct(Share(fds, workers, j))
  {
    if fds != [] {
      var n := |fds| - 1;
      ShareDistinct(fds[..n], workers, j);
      ShareMembers(fds[..n], workers, j, fds[n]);
    }
  }

  lemma {:induction false} DistinctSize(s: seq<int>, elements: set<int>)
    requires Distinct(s) && forall x :: x in elements <==> x in s
    ensures |elements| == |s|
  {
    if s == [] {
      assert forall x :: x in elements ==> x in s;
      assert elements == {};
    } else {
      var n := |s| - 1;
      assert s == s[..n] + [s[n]];
      DistinctSize(s[..n], elements - {s[n]});
    }
  }

  // ---------------------------------------------------------------- merge

  /** What a worker leaves behind. */
  datatype TestResult = TestResult(mcount: nat, latMap: map<bv64, nat>, messCount: map<int, nat>)

  function Messages(r: TestResult): nat { r.mcount }

  function InBucket(b: bv64): TestResult -> nat { (r: TestResult) => Get(r.latMap, b) }

  /** Adding under one key changes the value under that key only. */
  lemma AddOne<K>(m: map<K, nat>, k: K, n: nat)
    ensures forall x :: Get(m[k := Get(m, k) + n], x) == Get(m, x) + (if x == k then n else 0)
  {
  }

  /** The loop over one worker's lat_map, in whatever order the hash table has. */
  method AddLatencies<K(==)>(total: map<K, nat>, latMap: map<K, nat>) returns (sum: map<K, nat>)
    ensures forall b :: Get(sum, b) == Get(total, b) + Get(latMap, b)
  {
    sum := total;
    var rest := latMap;
    while rest != map[]
      invariant forall b :: Get(sum, b) + Get(rest, b) == Get(total, b) + Get(latMap, b)
      decreases |rest|
    {
      var b :| b in rest;
      AddOne(sum, b, rest[b]);
      sum := sum[b := Get(sum, b) + rest[b]];
      rest := rest - {b};
    }
  }

  /** Lines 574-580: the totals over all workers, message by message and bucket by bucket. */
  method Merge(tresults: seq<TestResult>) returns (mcount: nat, latMap: map<bv64, nat>)
    ensures mcount == SumOf(Messages, tresults)
    ensures forall b :: Get(latMap, b) == SumOf(InBucket(b), tresults)
  {
    mcount, latMap := 0, map[];
    for i := 0 to |tresults|
      invariant mcount == SumOf(Messages, tresults[..i])
      invariant forall b :: Get(latMap, b) == SumOf(InBucket(b), tresults[..i])
    {
      assert tresults[..i + 1] == tresults[..i] + [tresults[i]];
      SumOfAppend(Messages, tresults[..i], [tresults[i]]);
      forall b
        ensures SumOf(InBucket(b), tresults[..i + 1]) == SumOf(InBucket(b), tresults[..i]) + Get(tresults[i].latMap, b)
      {
        SumOfAppend(InBucket(b), tresults[..i], [tresults[i]]);
      }
      mcount := mcount + tresults[i].mcount;
      latMap := AddLatencies(latMap, tresults[i].latMap);
    }
    assert tresults[..|tresults|] == tresults;
  }

  // ---------------------------------------------------------------- percentiles

  predicate Sorted(s: seq<nat>) { forall i, j :: 0 <= i < j < |s| ==> s[i] <= s[j] }

  predicate NoLarger(a: nat, b: nat) { a <= b }

  lemma {:induction false} InsertSorted(x: nat, s: seq<nat>)
    requires Sorted(s)
    ensures Sorted(InsertBy(NoLarger, x, s))
  {
    if s == [] || x <= s[0] {
      SortedFirst(x, s);
    } else {
      assert s == [s[0]] + s[1..];
      InsertSorted(x, s[1..]);
      SortedCons(s[0], s[1..], x, InsertBy(NoLarger, x, s[1..]));
    }
  }

  lemma SortedFirst(x: nat, s: seq<nat>)
    requires Sorted(s) && (s == [] || x <= s[0])
    ensures Sorted([x] + s)
  {
  }

  lemma SortedCons(head: nat, tail: seq<nat>, x: nat, t: seq<nat>)
    requires Sorted([head] + tail) && head <= x && Sorted(t) && multiset(t) == multiset(tail) + multiset{x}
    ensures Sorted([head] + t)
  {
    forall i | 0 <= i < |t| ensures head <= t[i] {
      assert t[i] in multiset(t);
      if t[i] != x {
        assert t[i] in multiset(tail);
        var j :| 0 <= j < |tail| && tail[j] == t[i];
        assert ([head] + tail)[0] <= ([head] + tail)[j + 1];
      }
    }
  }

  /** std::sort. */
  function Sort(s: seq<nat>): (r: seq<nat>)
    ensures Sorted(r) && multiset(r) == multiset(s)
  {
    SortIsSorted(s);
    SortBy(NoLarger, s)
  }

  lemma {:induction false} SortIsSorted(s: seq<nat>)
    ensures Sorted(SortBy(NoLarger, s))
  {
    if s != [] {
      SortIsSorted(s[1..]);
      InsertSorted(s[0], SortBy(NoLarger, s[1..]));
    }
  }

  const PERCENTILES := 19

  /** The index computed at line 593. */
  function PercentileIndex(numConn: nat, i: nat): (idx: nat) { numConn * (i + 1) / (PERCENTILES + 1) }

  lemma IndexOrder(numConn: nat, i: nat, j: nat)
    requires i <= j
    ensures PercentileIndex(numConn, i) <= PercentileIndex(numConn, j)
  {
    var a, b := numConn * (i + 1), numConn * (j + 1);
    assert b - a == numConn * (j - i) >= 0;
    assert a / 20 <= b / 20;
  }

  /** The values of m, each as often as it occurs. */
  ghost function ValuesOf<K>(m: map<K, nat>): multiset<nat> {
    if m == map[] then multiset{} else
    var k :| k in m;
    multiset{m[k]} + ValuesOf(m - {k})
  }

  lemma {:induction false} ValuesRemove<K>(m: map<K, nat>, k: K)
    requires k in m
    ensures ValuesOf(m) == multiset{m[k]} + ValuesOf(m - {k})
    decreases |m|
  {
    var j :| j in m && ValuesOf(m) == multiset{m[j]} + ValuesOf(m - {j});
    hide ValuesOf;
    if j != k {
      var mj, mk := m - {j}, m - {k};
      var v, w := m[j], m[k];
      assert mj[k] == w && mk[j] == v && mj - {k} == mk - {j};
      ValuesRemove(mj, k);
      ValuesRemove(mk, j);
      var rest := ValuesOf(mk - {j});
      Swap(multiset{v}, multiset{w}, rest);
    }
  }

  lemma {:induction false} ValuesSize<K>(m: map<K, nat>)
    ensures |ValuesOf(m)| == |m|
    decreases |m|
  {
    if m != map[] {
      var k :| k in m && ValuesOf(m) == multiset{m[k]} + ValuesOf(m - {k});
      hide ValuesOf;
      ValuesSize(m - {k});
    }
  }

  /** The message counts of all sockets of all workers. */
  ghost function AllCounts(tresults: seq<TestResult>): multiset<nat> {
    if tresults == [] then multiset{} else
    var n := |tresults| - 1;
    AllCounts(tresults[..n]) + ValuesOf(tresults[n].messCount)
  }

  /** The loop over one worker's mess_count_for_sock, in whatever order the hash table has. */
  method PushCounts<K(==)>(mps: seq<nat>, messCount: map<K, nat>) returns (r: seq<nat>)
    ensures multiset(r) == multiset(mps) + ValuesOf(messCount)
  {
    r := mps;
    var rest := messCount;
    while rest != map[]
      invariant multiset(r) + ValuesOf(rest) == multiset(mps) + ValuesOf(messCount)
      decreases |rest|
    {
      var k :| k in rest;
      ValuesRemove(rest, k);
      r := r + [rest[k]];
      rest := rest - {k};
    }
  }

  function PingedSockets(r: TestResult): nat { |r.messCount| }

  /** Lines 582-588: the message counts of the sockets that were pinged. */
  method CollectCounts(tresults: seq<TestResult>) returns (mps: seq<nat>)
    ensures multiset(mps) == AllCounts(tresults)
  {
    mps := [];
    for k := 0 to |tresults|
      invariant multiset(mps) == AllCounts(tresults[..k])
    {
      assert tresults[..k + 1][..k] == tresults[..k];
      mps := PushCounts(mps, tresults[k].messCount);
    }
    assert tresults[..|tresults|] == tresults;
  }

  lemma {:induction false} CountsSize(tresults: seq<TestResult>)
    ensures |AllCounts(tresults)| == SumOf(PingedSockets, tresults)
  {
    if tresults != [] {
      var n := |tresults| - 1;
      CountsSize(tresults[..n]);
      ValuesSize(tresults[n].messCount);
      SumOfAppend(PingedSockets, tresults[..n], [tresults[n]]);
      assert tresults == tresults[..n] + [tresults[n]];
      assert SumOf(PingedSockets, [tresults[n]]) == PingedSockets(tresults[n]) + SumOf(PingedSockets, []);
    }
  }

  /**
   v is the quantile i + 1 of 20: the counts smaller than v do not exceed that share of num_conn sockets, and the counts
   at most v do. No more than one v is.
   */
  predicate IsQuantile(mps: seq<nat>, numConn: nat, i: nat, v: nat) {
    20 * Smaller(mps, v) <= numConn * (i + 1) < 20 * AtMost(mps, v)
  }

  lemma {:induction false} SmallerAtMost(s: seq<nat>, v: nat, w: nat)
    requires v < w
    ensures AtMost(s, v) <= Smaller(s, w)
  {
    if s != [] {
      SmallerAtMost(s[..|s| - 1], v, w);
    }
  }

  lemma QuantileIsUnique(mps: seq<nat>, numConn: nat, i: nat, v: nat, w: nat)
    requires IsQuantile(mps, numConn, i, v) && IsQuantile(mps, numConn, i, w)
    ensures v == w
  {
    if v < w {
      SmallerAtMost(mps, v, w);
    } else if w < v {
      SmallerAtMost(mps, w, v);
    }
  }

  /** What is read at the index of entry i is the quantile, and past the end there is none. */
  lemma IndexIsQuantile(mps: seq<nat>, numConn: nat, i: nat)
    requires Sorted(mps)
    ensures PercentileIndex(numConn, i) < |mps| <==> numConn * (i + 1) < 20 * |mps|
    ensures var idx := PercentileIndex(numConn, i); idx < |mps| ==> IsQuantile(mps, numConn, i, mps[idx])
  {
    var idx, share := PercentileIndex(numConn, i), numConn * (i + 1);
    assert 20 * idx <= share < 20 * (idx + 1);
    if idx < |mps| {
      SortedPrefix(mps, idx);
      SortedBefore(mps, idx);
    }
  }

  /** The entry of the result: the quantile, or None for a read past the end, which the program does not check. */
  ghost predicate IsEntry(mps: seq<nat>, numConn: nat, i: nat, entry: Option<nat>) {
    match entry
    case None => numConn * (i + 1) >= 20 * |mps|
    case Some(v) => numConn * (i + 1) < 20 * |mps| && IsQuantile(mps, numConn, i, v)
  }

  /** Lines 590-595: the counts sorted, and the 19 entries read from them. */
  method Percentiles(tresults: seq<TestResult>, numConn: nat) returns (percentiles: seq<Option<nat>>, mps: seq<nat>)
    ensures Sorted(mps) && multiset(mps) == AllCounts(tresults)
    ensures |percentiles| == PERCENTILES
    ensures forall i :: 0 <= i < PERCENTILES ==> IsEntry(mps, numConn, i, percentiles[i])
    ensures forall i :: 0 <= i < PERCENTILES ==>
      var idx := PercentileIndex(numConn, i);
      percentiles[i] == if idx < |mps| then Some(mps[idx]) else None
  {
    hide AllCounts, Sort, IsQuantile;
    var counts := CollectCounts(tresults);
    mps := Sort(counts);
    percentiles := [];
    for i := 0 to PERCENTILES
      invariant |percentiles| == i
      invariant forall j :: 0 <= j < i ==>
        var idx := PercentileIndex(numConn, j);
        percentiles[j] == if idx < |mps| then Some(mps[idx]) else None
      invariant forall j :: 0 <= j < i ==> IsEntry(mps, numConn, j, percentiles[j])
    {
      IndexIsQuantile(mps, numConn, i);
      var idx := numConn * (i + 1) / (PERCENTILES + 1);
      percentiles := percentiles + [if idx < |mps| then Some(mps[idx]) else None];
    }
  }

  /** All 19 reads are within the counts exactly if the last one is, that is, if more than 19/20 were pinged. */
  lemma AllInRangeIff(numConn: nat, pinged: nat)
    ensures (forall i :: 0 <= i < PERCENTILES ==> PercentileIndex(numConn, i) < pinged) <==> numConn * 19 / 20 < pinged
  {
    forall i | 0 <= i < PERCENTILES ensures PercentileIndex(numConn, i) <= PercentileIndex(numConn, 18) {
      IndexOrder(numConn, i, 18);
    }
    assert PercentileIndex(numConn, 18) == numConn * 19 / 20;
  }

  /** How many entries of s are at most v. */
  function AtMost(s: seq<nat>, v: nat): (n: nat)
    ensures n <= |s|
  {
    if s == [] then 0 else AtMost(s[..|s| - 1], v) + (if s[|s| - 1] <= v then 1 else 0)
  }

  /** How many are smaller. */
  function Smaller(s: seq<nat>, v: nat): (n: nat)
    ensures n <= |s|
  {
    if s == [] then 0 else Smaller(s[..|s| - 1], v) + (if s[|s| - 1] < v then 1 else 0)
  }

  /** In a sorted list only what stands before an entry can be smaller. */
  lemma {:induction false} SortedBefore(s: seq<nat>, idx: nat)
    requires Sorted(s) && idx < |s|
    ensures Smaller(s, s[idx]) <= idx
  {
    if idx < |s| - 1 {
      SortedBefore(s[..|s| - 1], idx);
    }
  }

  lemma {:induction false} SortedPrefix(s: seq<nat>, idx: nat)
    requires Sorted(s) && idx < |s|
    ensures AtMost(s, s[idx]) >= idx + 1
  {
    if idx < |s| - 1 {
      SortedPrefix(s[..|s| - 1], idx);
    } else {
      AllAtMost(s, s[idx]);
    }
  }

  lemma {:induction false} AllAtMost(s: seq<nat>, v: nat)
    requires forall i :: 0 <= i < |s| ==> s[i] <= v
    ensures AtMost(s, v) == |s|
  {
    if s != [] {
      AllAtMost(s[..|s| - 1], v);
    }
  }

  lemma {:induction false} SameSums(tresults: seq<TestResult>, shares: seq<seq<int>>)
    requires |tresults| == |shares| && forall j :: 0 <= j < |shares| ==> PingedSockets(tresults[j]) == |shares[j]|
    ensures SumOf(PingedSockets, tresults) == SumOf(Length, shares)
  {
    if shares != [] {
      SameSums(tresults[1..], shares[1..]);
    }
  }

  /** If every worker has pinged all its sockets, there is one count for every connection. */
  lemma EveryConnectionCounted(fds: seq<int>, workers: nat, capacity: nat, shares: seq<seq<int>>,
      tresults: seq<TestResult>)
    requires Partitioned(fds, workers, capacity, shares) && Distinct(fds) && |tresults| == workers
    requires forall j, x :: 0 <= j < workers ==> (x in tresults[j].messCount <==> x in shares[j])
    ensures |AllCounts(tresults)| == |fds|
  {
    forall j | 0 <= j < workers ensures PingedSockets(tresults[j]) == |shares[j]| {
      ShareDistinct(fds, workers, j);
      assert forall x :: x in tresults[j].messCount.Keys <==> x in shares[j];
      DistinctSize(shares[j], tresults[j].messCount.Keys);
    }
    SameSums(tresults, shares);
    assert shares == Shares(fds, workers);
    SharesCover(fds, workers);
    CountsSize(tresults);
  }

  /**
   Entries that are in range are counts in increasing order, and entry i covers (i + 1)/20 of num_conn sockets;
   all are in range when every connection was pinged.
   */
  lemma PercentilesAreQuantiles(mps: seq<nat>, numConn: nat, i: nat, j: nat)
    requires Sorted(mps) && i <= j < PERCENTILES
    ensures PercentileIndex(numConn, i) <= PercentileIndex(numConn, j)
    ensures |mps| == numConn >= 1 ==> PercentileIndex(numConn, j) < |mps|
    ensures PercentileIndex(numConn, j) < |mps| ==>
      && mps[PercentileIndex(numConn, i)] <= mps[PercentileIndex(numConn, j)]
      && 20 * AtMost(mps, mps[PercentileIndex(numConn, i)]) >= numConn * (i + 1)
  {
    IndexOrder(numConn, i, j);
    if numConn >= 1 {
      AllInRangeIff(numConn, numConn);
    }
    var idx, last := PercentileIndex(numConn, i), PercentileIndex(numConn, j);
    if last < |mps| {
      assert idx < last ==> mps[idx] <= mps[last];
      SortedPrefix(mps, idx);
    }
  }
}
