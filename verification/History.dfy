/** What a worker thread has done to its sockets, as a list of events, and what it should satisfy. */
module History {
  import opened Totals
  import opened Log2
  import opened Words64

  const U64: nat := 0x1_0000_0000_0000_0000

  /**
   Seen: the selector reported fd at clock reading `at`; `bucket` is the latency bucket counted for it,
   if any, and `timeout` the pause drawn for its next ping. Pinged: the reading before the ping and the
   one stored as the new last write time.
   */
  datatype Ev =
    | Seen(fd: int, at: nat, timeout: nat, bucket: Option<bv64>)
    | Pinged(fd: int, start: nat, stamp: nat)

  function SeenCount(h: seq<Ev>, fd: int): nat {
    if h == [] then 0 else SeenCount(h[..|h| - 1], fd) + (if h[|h| - 1].Seen? && h[|h| - 1].fd == fd then 1 else 0)
  }

  function PingCount(h: seq<Ev>, fd: int): nat {
    if h == [] then 0 else PingCount(h[..|h| - 1], fd) + (if h[|h| - 1].Pinged? && h[|h| - 1].fd == fd then 1 else 0)
  }

  /** All reports. */
  function SeenTotal(h: seq<Ev>): nat {
    if h == [] then 0 else SeenTotal(h[..|h| - 1]) + (if h[|h| - 1].Seen? then 1 else 0)
  }

  function BucketCount(h: seq<Ev>, b: bv64): nat {
    if h == [] then 0
    else BucketCount(h[..|h| - 1], b) + (if h[|h| - 1].Seen? && h[|h| - 1].bucket == Some(b) then 1 else 0)
  }

  /** The last write time of fd. */
  function LastStamp(h: seq<Ev>, fd: int): Option<nat> {
    if h == [] then None
    else if h[|h| - 1].Pinged? && h[|h| - 1].fd == fd then Some(h[|h| - 1].stamp)
    else LastStamp(h[..|h| - 1], fd)
  }

  /** The pause drawn last for fd. */
  function LastDraw(h: seq<Ev>, fd: int): Option<nat> {
    if h == [] then None
    else if h[|h| - 1].Seen? && h[|h| - 1].fd == fd then Some(h[|h| - 1].timeout)
    else LastDraw(h[..|h| - 1], fd)
  }

  /** The value in last_time_for_socket: zero until the first ping. */
  function LastTime(h: seq<Ev>, fd: int): nat {
    if LastStamp(h, fd).Some? then LastStamp(h, fd).value else 0
  }

  lemma Appended(h: seq<Ev>, e: Ev)
    ensures (h + [e])[..|h|] == h && (h + [e])[|h|] == e
  {
  }

  /** fd has never been reported again before its last report was answered. */
  ghost predicate Calm(h: seq<Ev>, fd: int) {
    h == [] || (Calm(h[..|h| - 1], fd) && SeenCount(h, fd) <= PingCount(h, fd) + 1)
  }

  lemma CalmAppend(h: seq<Ev>, e: Ev, fd: int)
    ensures Calm(h + [e], fd) <==> Calm(h, fd) && SeenCount(h + [e], fd) <= PingCount(h + [e], fd) + 1
  {
    Appended(h, e);
  }

  /** What has been reported has a pause drawn for it. */
  lemma {:induction false} SeenIsDrawn(h: seq<Ev>, fd: int)
    ensures SeenCount(h, fd) > 0 <==> LastDraw(h, fd).Some?
  {
    if h != [] {
      SeenIsDrawn(h[..|h| - 1], fd);
    }
  }

  /**
   An event may follow history h: a ping answers a report, and the pause of a calm descriptor is over, unless its
   due time wrapped around.
   */
  ghost predicate Follows(h: seq<Ev>, e: Ev, tmin: nat, tmax: nat) {
    match e
    case Seen(fd, at, timeout, bucket) =>
      && tmin <= timeout <= tmax
      && LastTime(h, fd) <= at
      && (SeenCount(h, fd) == 0 <==> bucket.None?)
    case Pinged(fd, start, stamp) =>
      && LastTime(h, fd) <= start <= stamp
      && PingCount(h, fd) < SeenCount(h, fd) && LastDraw(h, fd).Some?
      && (Calm(h, fd) && LastTime(h, fd) + LastDraw(h, fd).value < U64 ==>
        LastTime(h, fd) + LastDraw(h, fd).value <= start)
  }

  /** b is the bucket of latency d: the integer part of its logarithm, or 63 for zero. */
  predicate LatencyBucket(d: nat, b: bv64) {
    if Bits(d) == 0 then b == 63 else IsLog2(Bits(d), b)
  }

  /** Every latency counted so far is in its bucket. */
  ghost predicate Latencies(h: seq<Ev>) {
    h == [] || (
      && Latencies(h[..|h| - 1])
      && (h[|h| - 1].Seen? && h[|h| - 1].bucket.Some? ==>
        h[|h| - 1].at >= LastTime(h[..|h| - 1], h[|h| - 1].fd) &&
        LatencyBucket(h[|h| - 1].at - LastTime(h[..|h| - 1], h[|h| - 1].fd), h[|h| - 1].bucket.value)))
  }

  lemma LatenciesAppend(h: seq<Ev>, e: Ev)
    requires Latencies(h) && (e.Seen? && e.bucket.Some? ==>
      e.at >= LastTime(h, e.fd) && LatencyBucket(e.at - LastTime(h, e.fd), e.bucket.value))
    ensures Latencies(h + [e])
  {
    Appended(h, e);
  }

  /** Bucket b holds the latencies from 2^b up to 2^(b + 1). */
  lemma LatencyBucketIff(d: nat, b: bv64)
    requires 0 < d < U64
    ensures LatencyBucket(d, b) <==> b < 64 && Pow2(Number(b)) <= d < Pow2(Number(b) + 1)
  {
    hide Bits, Number, Pow2;
    PowerOf64();
    NonZeroBits(d);
    if b < 64 {
      Log2OfBits(d, b);
      PowerStep(Number(b) + 1);
    }
  }

  /** A latency of zero is counted in the last bucket. */
  lemma ZeroLatencyBucket(b: bv64)
    ensures LatencyBucket(0, b) <==> b == 63
  {
    ZeroBits();
    hide Bits;
  }

  /** How many latencies from lo up to hi have been measured. */
  function LatencyCount(h: seq<Ev>, lo: nat, hi: nat): nat {
    if h == [] then 0
    else
      var e, before := h[|h| - 1], h[..|h| - 1];
      LatencyCount(before, lo, hi) +
      (if e.Seen? && e.bucket.Some? && lo <= e.at - LastTime(before, e.fd) < hi then 1 else 0)
  }

  /** All readings of the clock are 64-bit numbers. */
  predicate InClock(h: seq<Ev>) { forall e <- h :: e.Seen? ==> e.at < U64 }

  /** The histogram of a history: each bucket counts the latencies between its powers of two, and the last one zeros. */
  lemma {:induction false} HistogramIsExact(h: seq<Ev>, b: bv64)
    requires Latencies(h) && InClock(h)
    ensures BucketCount(h, b) == if b >= 64 then 0
      else LatencyCount(h, Pow2(Number(b)), Pow2(Number(b) + 1)) + (if b == 63 then LatencyCount(h, 0, 1) else 0)
  {
    if h != [] {
      var e, before := h[|h| - 1], h[..|h| - 1];
      assert e in h && InClock(before) by {
        assert forall x <- before :: x in h;
      }
      HistogramIsExact(before, b);
      if e.Seen? && e.bucket.Some? {
        OneMoreLatency(e.at - LastTime(before, e.fd), e.bucket.value, b);
      }
      hide LastTime, LatencyBucket, Pow2, Number, Latencies, InClock;
    }
  }

  /** Where one latency is counted. */
  lemma OneMoreLatency(d: nat, counted: bv64, b: bv64)
    requires d < U64 && LatencyBucket(d, counted)
    ensures b >= 64 ==> counted != b
    ensures b < 64 ==> (counted == b <==> Pow2(Number(b)) <= d < Pow2(Number(b) + 1) || (b == 63 && d == 0))
  {
    hide LatencyBucket, Number, Pow2;
    if d == 0 {
      ZeroLatencyBucket(counted);
      if b < 64 {
        PositivePower(Number(b));
      }
    } else {
      LatencyBucketIff(d, counted);
      LatencyBucketIff(d, b);
      if LatencyBucket(d, b) {
        BucketIsUnique(d, counted, b);
      }
    }
  }

  lemma PositivePower(n: nat)
    ensures Pow2(n) >= 1
  {
  }

  lemma BucketIsUnique(d: nat, b: bv64, c: bv64)
    requires LatencyBucket(d, b) && LatencyBucket(d, c)
    ensures b == c
  {
    hide Bits;
    if Bits(d) != 0 {
      Log2IsUnique(Bits(d), b, c);
    }
  }

  /** The bucket the worker counts latency d in. */
  method BucketOf(d: nat) returns (b: bv64)
    ensures LatencyBucket(d, b)
  {
    b := Log2_64(Bits(d));
  }

  /** What one more event does to the counts and to the times. */
  lemma AfterSeen(h: seq<Ev>, e: Ev)
    requires e.Seen?
    ensures var g := h + [e];
      && (forall x :: SeenCount(g, x) == SeenCount(h, x) + (if x == e.fd then 1 else 0))
      && SeenTotal(g) == SeenTotal(h) + 1
      && (forall x :: PingCount(g, x) == PingCount(h, x))
      && (forall x :: LastTime(g, x) == LastTime(h, x))
      && (forall x :: LastDraw(g, x) == if x == e.fd then Some(e.timeout) else LastDraw(h, x))
      && (forall b :: BucketCount(g, b) == BucketCount(h, b) + (if e.bucket == Some(b) then 1 else 0))
  {
    Appended(h, e);
  }

  lemma AfterPing(h: seq<Ev>, e: Ev)
    requires e.Pinged?
    ensures var g := h + [e];
      && (forall x :: SeenCount(g, x) == SeenCount(h, x))
      && SeenTotal(g) == SeenTotal(h)
      && (forall x :: PingCount(g, x) == PingCount(h, x) + (if x == e.fd then 1 else 0))
      && (forall x :: LastTime(g, x) == if x == e.fd then e.stamp else LastTime(h, x))
      && (forall x :: LastDraw(g, x) == LastDraw(h, x))
      && (forall b :: BucketCount(g, b) == BucketCount(h, b))
  {
    Appended(h, e);
  }

  /** Every event follows from those before it. */
  ghost predicate Proper(h: seq<Ev>, tmin: nat, tmax: nat) {
    h == [] || (Proper(h[..|h| - 1], tmin, tmax) && Follows(h[..|h| - 1], h[|h| - 1], tmin, tmax))
  }

  lemma ProperAppend(h: seq<Ev>, e: Ev, tmin: nat, tmax: nat)
    requires Proper(h, tmin, tmax) && Follows(h, e, tmin, tmax)
    ensures Proper(h + [e], tmin, tmax)
  {
    Appended(h, e);
  }

  // ---------------------------------------------------------------- pacing over whole runs

  /** The pings of fd stay within the 64-bit range: no due time wraps around. */
  ghost predicate NoOverflow(h: seq<Ev>, fd: int, tmax: nat) {
    forall i :: 0 <= i < |h| && h[i].Pinged? && h[i].fd == fd ==> h[i].stamp + tmax < U64
  }

  /** The pings of fd, in order. */
  function Pings(h: seq<Ev>, fd: int): seq<Ev> {
    if h == [] then []
    else if h[|h| - 1].Pinged? && h[|h| - 1].fd == fd then Pings(h[..|h| - 1], fd) + [h[|h| - 1]]
    else Pings(h[..|h| - 1], fd)
  }

  lemma {:induction false} PingsFacts(h: seq<Ev>, fd: int)
    ensures |Pings(h, fd)| == PingCount(h, fd)
    ensures forall e <- Pings(h, fd) :: e.Pinged? && e in h
    ensures if Pings(h, fd) == [] then LastStamp(h, fd) == None
      else LastStamp(h, fd) == Some(Pings(h, fd)[|Pings(h, fd)| - 1].stamp)
  {
    if h != [] {
      PingsFacts(h[..|h| - 1], fd);
    }
  }

  lemma {:induction false} DrawInRange(h: seq<Ev>, fd: int, tmin: nat, tmax: nat)
    requires Proper(h, tmin, tmax) && LastDraw(h, fd).Some?
    ensures tmin <= LastDraw(h, fd).value <= tmax
  {
    if !(h[|h| - 1].Seen? && h[|h| - 1].fd == fd) {
      DrawInRange(h[..|h| - 1], fd, tmin, tmax);
    }
  }

  function Pauses(n: nat, pause: nat): nat { n * pause }

  /**
   Pacing: the m-th and the n-th ping of a calm socket are at least n - m times the minimal timeout
   apart, measured from the end of the earlier write to the clock reading before the later one.
   */
  lemma {:induction false} PingsAreSpaced(h: seq<Ev>, fd: int, tmin: nat, tmax: nat, m: nat, n: nat)
    requires Proper(h, tmin, tmax) && NoOverflow(h, fd, tmax) && Calm(h, fd)
    requires m < n < |Pings(h, fd)|
    ensures Pings(h, fd)[m].Pinged? && Pings(h, fd)[n].Pinged?
    ensures Pings(h, fd)[m].stamp + Pauses(n - m, tmin) <= Pings(h, fd)[n].start
  {
    PingsFacts(h, fd);
    ProperSplit(h, fd, tmin, tmax);
    var g, e := h[..|h| - 1], h[|h| - 1];
    var pings := Pings(g, fd);
    assert Pings(h, fd) == if e.Pinged? && e.fd == fd then pings + [e] else pings;
    hide Proper, Follows, Calm, NoOverflow, Pings, Pauses;
    if n == |pings| {
      NextPingIsSpaced(g, e, tmin, tmax);
      if m < n - 1 {
        PingsAreSpaced(g, fd, tmin, tmax, m, n - 1);
        StampAfterStart(g, fd, tmin, tmax, n - 1);
        OneMorePause(n - m, tmin);
      } else {
        OnePause(tmin);
      }
    } else {
      PingsAreSpaced(g, fd, tmin, tmax, m, n);
    }
  }

  lemma OnePause(pause: nat)
    ensures Pauses(1, pause) == pause
  {
  }

  lemma OneMorePause(k: nat, pause: nat)
    requires k >= 1
    ensures Pauses(k, pause) == Pauses(k - 1, pause) + pause
  {
  }

  lemma ProperSplit(h: seq<Ev>, fd: int, tmin: nat, tmax: nat)
    requires h != [] && Proper(h, tmin, tmax) && NoOverflow(h, fd, tmax) && Calm(h, fd)
    ensures var g := h[..|h| - 1];
      Proper(g, tmin, tmax) && NoOverflow(g, fd, tmax) && Calm(g, fd) && Follows(g, h[|h| - 1], tmin, tmax)
  {
    var g := h[..|h| - 1];
    assert forall i :: 0 <= i < |g| ==> g[i] == h[i];
  }

  /** A ping that follows is at least the minimal timeout after the last one. */
  lemma NextPingIsSpaced(g: seq<Ev>, e: Ev, tmin: nat, tmax: nat)
    requires e.Pinged? && Proper(g, tmin, tmax) && Follows(g, e, tmin, tmax)
    requires NoOverflow(g, e.fd, tmax) && Calm(g, e.fd)
    requires Pings(g, e.fd) != []
    ensures var last := Pings(g, e.fd)[|Pings(g, e.fd)| - 1]; last.Pinged? && last.stamp + tmin <= e.start
  {
    PingsFacts(g, e.fd);
    DrawInRange(g, e.fd, tmin, tmax);
    var last := Pings(g, e.fd)[|Pings(g, e.fd)| - 1];
    assert last in g;
    var i :| 0 <= i < |g| && g[i] == last;
    PingsOfFd(g, e.fd);
    assert last in Pings(g, e.fd);
  }

  lemma {:induction false} PingsOfFd(h: seq<Ev>, fd: int)
    ensures forall e <- Pings(h, fd) :: e.fd == fd
  {
    if h != [] {
      PingsOfFd(h[..|h| - 1], fd);
    }
  }

  lemma {:induction false} StampAfterStart(h: seq<Ev>, fd: int, tmin: nat, tmax: nat, n: nat)
    requires Proper(h, tmin, tmax) && n < |Pings(h, fd)|
    ensures Pings(h, fd)[n].Pinged? && Pings(h, fd)[n].start <= Pings(h, fd)[n].stamp
  {
    PingsFacts(h[..|h| - 1], fd);
    if n < |Pings(h[..|h| - 1], fd)| {
      StampAfterStart(h[..|h| - 1], fd, tmin, tmax, n);
    }
  }
}
