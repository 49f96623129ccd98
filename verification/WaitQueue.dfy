/** The priority queue of worker_thread: FdTimout, ordered backwards so that the top is the earliest. */
module WaitQueue {
  import opened Totals

  datatype FdTimeout = FdTimeout(fd: int, readyTime: nat)

  /** FdTimout::operator<, the order std::priority_queue takes the maximum of. */
  predicate Less(a: FdTimeout, b: FdTimeout) { a.readyTime > b.readyTime }

  /** An element std::priority_queue::top may return. */
  predicate IsTop(q: multiset<FdTimeout>, t: FdTimeout) {
    t in q && forall x <- q :: !Less(t, x)
  }

  lemma {:induction false} TopExists(q: multiset<FdTimeout>) returns (t: FdTimeout)
    requires q != multiset{}
    ensures IsTop(q, t)
    decreases |q|
  {
    var x :| x in q;
    var rest := q - multiset{x};
    if rest == multiset{} {
      t := x;
      assert forall y :: y in q ==> y == x || y in rest;
    } else {
      var s := TopExists(rest);
      t := if Less(s, x) then x else s;
      assert forall y :: y in q ==> y == x || y in rest;
    }
  }

  /** top(). Among equal deadlines any may come first. */
  method Top(q: multiset<FdTimeout>) returns (t: FdTimeout)
    requires q != multiset{}
    ensures IsTop(q, t)
    ensures forall x :: x in q ==> t.readyTime <= x.readyTime
  {
    ghost var top := TopExists(q);
    t :| t in q && IsTop(q, t);
  }

  /** The descriptors of the entries, each as often as it has one. */
  ghost function FdsIn(q: multiset<FdTimeout>): multiset<int> { Image((x: FdTimeout) => x.fd, q) }

  lemma Pushed(q: multiset<FdTimeout>, x: FdTimeout)
    ensures FdsIn(q + multiset{x}) == FdsIn(q) + multiset{x.fd}
  {
    ImageAdd((y: FdTimeout) => y.fd, q, x);
  }

  lemma HasEntry(q: multiset<FdTimeout>, x: FdTimeout)
    requires x in q
    ensures x.fd in FdsIn(q)
  {
    ImageMember((y: FdTimeout) => y.fd, q, x);
  }

  function Fds(items: seq<FdTimeout>): (r: seq<int>)
    ensures |r| == |items|
    ensures forall i :: 0 <= i < |items| ==> r[i] == items[i].fd
  {
    seq(|items|, i requires 0 <= i < |items| => items[i].fd)
  }

  lemma SplitLast(items: seq<FdTimeout>)
    requires items != []
    ensures var n := |items| - 1;
      && multiset(items) == multiset(items[..n]) + multiset{items[n]}
      && Fds(items) == Fds(items[..n]) + [items[n].fd]
      && multiset(Fds(items)) == multiset(Fds(items[..n])) + multiset{items[n].fd}
  {
    assert items == items[..|items| - 1] + [items[|items| - 1]];
    assert Fds(items) == Fds(items[..|items| - 1]) + [items[|items| - 1].fd];
  }

  /** Moving entries from the queue to a list moves their descriptors. */
  lemma {:induction false} FdsInItems(q: multiset<FdTimeout>, items: seq<FdTimeout>)
    ensures FdsIn(q + multiset(items)) == FdsIn(q) + multiset(Fds(items))
    ensures |q + multiset(items)| == |q| + |items|
    decreases |items|
  {
    hide FdsIn;
    if items == [] {
      assert q + multiset(items) == q && Fds(items) == [];
    } else {
      var n := |items| - 1;
      SplitLast(items);
      hide Fds;
      FdsInItems(q, items[..n]);
      Pushed(q + multiset(items[..n]), items[n]);
      Assoc(q, multiset(items[..n]), multiset{items[n]});
      Assoc(FdsIn(q), multiset(Fds(items[..n])), multiset{items[n].fd});
    }
  }

  predicate SortedByDeadline(items: seq<FdTimeout>) {
    forall i, j :: 0 <= i < j < |items| ==> items[i].readyTime <= items[j].readyTime
  }

  /** What the drain loop takes out: exactly the entries whose time has come, earliest first. */
  ghost predicate Drained(before: multiset<FdTimeout>, after: multiset<FdTimeout>, items: seq<FdTimeout>, now: nat) {
    && before == after + multiset(items)
    && SortedByDeadline(items)
    && (forall x <- items :: x.readyTime <= now)
    && (forall x :: x in after ==> x.readyTime > now)
  }

  /** Everything taken out so far was due, and not later than anything left. */
  ghost predicate Draining(queue: multiset<FdTimeout>, rest: multiset<FdTimeout>, items: seq<FdTimeout>, now: nat) {
    && queue == rest + multiset(items)
    && SortedByDeadline(items) && (forall x <- items :: x.readyTime <= now)
    && (forall x, y :: x in items && y in rest ==> x.readyTime <= y.readyTime)
  }

  lemma DrainOne(queue: multiset<FdTimeout>, rest: multiset<FdTimeout>, items: seq<FdTimeout>, now: nat, top: FdTimeout)
    requires Draining(queue, rest, items, now) && IsTop(rest, top) && top.readyTime <= now
    ensures Draining(queue, rest - multiset{top}, items + [top], now)
    ensures Fds(items + [top]) == Fds(items) + [top.fd]
  {
    assert multiset(items + [top]) == multiset(items) + multiset{top};
    SortedAppend(items, top);
    forall x, y | x in items + [top] && y in rest - multiset{top} ensures x.readyTime <= y.readyTime {
      assert y in rest && !Less(top, y);
    }
  }

  lemma SortedAppend(items: seq<FdTimeout>, x: FdTimeout)
    requires SortedByDeadline(items) && forall y <- items :: y.readyTime <= x.readyTime
    ensures SortedByDeadline(items + [x])
  {
  }

  lemma DrainOver(queue: multiset<FdTimeout>, rest: multiset<FdTimeout>, items: seq<FdTimeout>, now: nat,
      top: FdTimeout)
    requires Draining(queue, rest, items, now) && IsTop(rest, top) && top.readyTime > now
    ensures Drained(queue, rest, items, now)
  {
    assert forall y :: y in rest ==> !Less(top, y);
  }

  /** Before the loop nothing is taken out; when nothing is left, the drain is complete. */
  lemma DrainEnds(queue: multiset<FdTimeout>, items: seq<FdTimeout>, now: nat)
    ensures items == [] ==> Draining(queue, queue, items, now) && Fds(items) == []
    ensures Draining(queue, multiset{}, items, now) ==> Drained(queue, multiset{}, items, now)
  {
  }

  /** The drain is determined up to the order of equal deadlines: what stays does not depend on it. */
  lemma DrainIsExact(before: multiset<FdTimeout>, after: multiset<FdTimeout>, items: seq<FdTimeout>, now: nat,
      x: FdTimeout)
    requires Drained(before, after, items, now)
    ensures after[x] == if x.readyTime > now then before[x] else 0
    ensures multiset(items)[x] == if x.readyTime > now then 0 else before[x]
  {
    if multiset(items)[x] > 0 {
      assert x in multiset(items);
    }
    if after[x] > 0 {
      assert x in after;
    }
  }

  lemma DrainLeavesLater(before: multiset<FdTimeout>, after: multiset<FdTimeout>, items: seq<FdTimeout>, now: nat)
    requires Drained(before, after, items, now)
    ensures forall x :: after[x] == if x.readyTime > now then before[x] else 0
  {
    hide Drained;
    forall x ensures after[x] == if x.readyTime > now then before[x] else 0 {
      DrainIsExact(before, after, items, now, x);
    }
  }

  /** The drain loop of worker_thread. */
  method DrainExpired(queue: multiset<FdTimeout>, readyFds: seq<int>, now: nat)
    returns (rest: multiset<FdTimeout>, ready: seq<int>, ghost items: seq<FdTimeout>)
    ensures forall x :: rest[x] == if x.readyTime > now then queue[x] else 0
    ensures Drained(queue, rest, items, now) && ready == readyFds + Fds(items)
  {
    hide SortedByDeadline, Less, Fds, Draining, Drained, IsTop;
    rest, ready, items := queue, readyFds, [];
    DrainEnds(queue, items, now);
    while rest != multiset{}
      invariant Draining(queue, rest, items, now) && ready == readyFds + Fds(items)
      decreases |rest|
    {
      var item := Top(rest);
      assert item in rest by { TopIsIn(rest, item); }
      if item.readyTime <= now {
        DrainOne(queue, rest, items, now, item);
        ready := ready + [item.fd];
        rest := rest - multiset{item};
        items := items + [item];
      } else {
        DrainOver(queue, rest, items, now, item);
        DrainLeavesLater(queue, rest, items, now);
        return;
      }
    }
    DrainEnds(queue, items, now);
    DrainLeavesLater(queue, rest, items, now);
  }

  lemma TopIsIn(q: multiset<FdTimeout>, t: FdTimeout)
    requires IsTop(q, t)
    ensures t in q
  {
  }
}
