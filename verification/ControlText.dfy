/** The text the server and the client's driver exchange: the test request, and the result of the test. */
module ControlText {
  import opened Totals
  import opened Text

  // ---------------------------------------------------------------- words

  /** Text without white space, and not empty. */
  predicate IsWord(s: string) { s != "" && forall i :: 0 <= i < |s| ==> !IsSpace(s[i]) }

  predicate AllWords(ws: seq<string>) { forall i :: 0 <= i < |ws| ==> IsWord(ws[i]) }

  /** Each word behind a space, as operator<< and the f-string put them. */
  function Spaced(ws: seq<string>): string {
    if ws == [] then "" else " " + ws[0] + Spaced(ws[1..])
  }

  lemma {:induction false} SpacedAppend(a: seq<string>, b: seq<string>)
    ensures Spaced(a + b) == Spaced(a) + Spaced(b)
  {
    if a == [] {
      assert a + b == b;
    } else {
      SpacedAppend(a[1..], b);
      assert (a + b)[1..] == a[1..] + b;
    }
  }

  function WordSpan(s: string): (n: nat)
    ensures n <= |s|
    ensures forall i :: 0 <= i < n ==> !IsSpace(s[i])
  {
    if s != "" && !IsSpace(s[0]) then 1 + WordSpan(s[1..]) else 0
  }

  lemma {:induction false} WordSpanStops(w: string, rest: string)
    requires (forall i :: 0 <= i < |w| ==> !IsSpace(w[i])) && (rest == "" || IsSpace(rest[0]))
    ensures WordSpan(w + rest) == |w|
  {
    if w == "" {
      assert w + rest == rest;
    } else {
      assert (w + rest)[1..] == w[1..] + rest;
      WordSpanStops(w[1..], rest);
    }
  }

  /** result.split() */
  function Words(s: string): seq<string>
    decreases |s|
  {
    if s == "" then []
    else if IsSpace(s[0]) then Words(s[1..])
    else [s[..WordSpan(s)]] + Words(s[WordSpan(s)..])
  }

  lemma {:induction false} WordsOfSpaced(ws: seq<string>)
    requires AllWords(ws)
    ensures Words(Spaced(ws)) == ws
  {
    if ws != [] {
      var rest := Spaced(ws[1..]);
      assert Spaced(ws) == " " + ws[0] + rest && IsWord(ws[0]) && (rest == "" || IsSpace(rest[0]));
      hide Words, Spaced, IsWord, IsSpace;
      WordThenRest(ws[0], rest);
      SpaceIsSkipped(ws[0] + rest);
      assert " " + ws[0] + rest == " " + (ws[0] + rest);
      WordsOfSpaced(ws[1..]);
      assert [ws[0]] + ws[1..] == ws;
    }
  }

  lemma SpaceIsSkipped(t: string)
    ensures Words(" " + t) == Words(t)
  {
    assert (" " + t)[1..] == t;
  }

  lemma WordsOfText(first: string, ws: seq<string>)
    requires IsWord(first) && AllWords(ws)
    ensures Words(first + Spaced(ws)) == [first] + ws
  {
    hide Words, IsWord;
    var all := [first] + ws;
    assert all[0] == first && all[1..] == ws;
    WordsOfSpaced(all);
    SpaceIsSkipped(first + Spaced(ws));
    hide Spaced;
    assert " " + first + Spaced(ws) == " " + (first + Spaced(ws));
  }

  lemma NatTextIsWord(n: nat)
    ensures IsWord(NatText(n))
  {
  }

  // ---------------------------------------------------------------- the result, from C++ to Python

  /** order lists the keys of m, each once: the unspecified order of an unordered_map. */
  ghost predicate IsOrder(order: seq<nat>, m: map<nat, nat>) {
    (forall i, j :: 0 <= i < j < |order| ==> order[i] != order[j]) &&
    (forall i :: 0 <= i < |order| ==> order[i] in m) && (forall k :: k in m ==> k in order)
  }

  function Pairs(m: map<nat, nat>, order: seq<nat>): (r: seq<nat>)
    requires forall i :: 0 <= i < |order| ==> order[i] in m
    ensures |r| == 2 * |order|
  {
    if order == [] then [] else [order[0], m[order[0]]] + Pairs(m, order[1..])
  }

  function NatWords(ns: seq<nat>): (ws: seq<string>)
    ensures |ws| == |ns| && forall i :: 0 <= i < |ns| ==> ws[i] == NatText(ns[i])
  {
    seq(|ns|, i requires 0 <= i < |ns| => NatText(ns[i]))
  }

  /** The numbers behind the message count and the base. */
  function ResultNums(m: map<nat, nat>, order: seq<nat>, percentiles: seq<nat>): seq<nat>
    requires forall i :: 0 <= i < |order| ==> order[i] in m
  {
    [|m|] + Pairs(m, order) + ([|percentiles|] + percentiles)
  }

  /** The text of a result, with the printed base as a parameter and the map's order as another. */
  function ResultText(mcount: nat, base: string, m: map<nat, nat>, order: seq<nat>, percentiles: seq<nat>): string
    requires forall i :: 0 <= i < |order| ==> order[i] in m
  {
    NatText(mcount) + Spaced([base] + NatWords(ResultNums(m, order, percentiles)))
  }

  lemma OneWord(text: string, w: string, ws: seq<string>)
    ensures text + Spaced([w] + ws) == text + (" " + w) + Spaced(ws)
  {
    assert ([w] + ws)[1..] == ws;
  }

  lemma OneNat(text: string, n: nat, ns: seq<nat>)
    ensures text + Spaced(NatWords([n] + ns)) == text + (" " + NatText(n)) + Spaced(NatWords(ns))
  {
    OneWord(text, NatText(n), NatWords(ns));
    assert NatWords([n] + ns) == [NatText(n)] + NatWords(ns);
  }

  lemma NumsStart(m: map<nat, nat>, order: seq<nat>, percentiles: seq<nat>)
    requires forall i :: 0 <= i < |order| ==> order[i] in m
    ensures ResultNums(m, order, percentiles) == [|m|] + (Pairs(m, order) + ([|percentiles|] + percentiles))
  {
  }

  lemma NoPairs(m: map<nat, nat>, order: seq<nat>, tail: seq<nat>)
    requires order == []
    ensures Pairs(m, order) + tail == tail
  {
  }

  lemma PairsStep(m: map<nat, nat>, order: seq<nat>, i: nat, tail: seq<nat>)
    requires i < |order| && forall k :: 0 <= k < |order| ==> order[k] in m
    ensures Pairs(m, order[i..]) + tail == [order[i]] + ([m[order[i]]] + (Pairs(m, order[i + 1..]) + tail))
  {
    assert order[i..][1..] == order[i + 1..];
  }

  /** serialize_to_str */
  method SerializeToStr(mcount: nat, base: string, latMap: map<nat, nat>, order: seq<nat>, percentiles: seq<nat>)
    returns (serialized: string)
    requires IsOrder(order, latMap)
    ensures serialized == ResultText(mcount, base, latMap, order, percentiles)
  {
    hide Spaced, NatText, NatWords, Pairs, ResultNums;
    ghost var full := ResultText(mcount, base, latMap, order, percentiles);
    ghost var tail := [|percentiles|] + percentiles;
    serialized := NatText(mcount);
    OneWord(serialized, base, NatWords(ResultNums(latMap, order, percentiles)));
    serialized := serialized + (" " + base);
    NumsStart(latMap, order, percentiles);
    OneNat(serialized, |latMap|, Pairs(latMap, order) + tail);
    serialized := serialized + (" " + NatText(|latMap|));
    assert order[0..] == order;
    for i := 0 to |order|
      invariant serialized + Spaced(NatWords(Pairs(latMap, order[i..]) + tail)) == full
    {
      var val := latMap[order[i]];
      PairsStep(latMap, order, i, tail);
      OneNat(serialized, order[i], [val] + (Pairs(latMap, order[i + 1..]) + tail));
      OneNat(serialized + (" " + NatText(order[i])), val, Pairs(latMap, order[i + 1..]) + tail);
      serialized := serialized + (" " + NatText(order[i])) + (" " + NatText(val));
    }
    NoPairs(latMap, order[|order|..], tail);
    OneNat(serialized, |percentiles|, percentiles);
    serialized := serialized + (" " + NatText(|percentiles|));
    assert percentiles[0..] == percentiles;
    for i := 0 to |percentiles|
      invariant serialized + Spaced(NatWords(percentiles[i..])) == full
    {
      assert percentiles[i..] == [percentiles[i]] + percentiles[i + 1..];
      OneNat(serialized, percentiles[i], percentiles[i + 1..]);
      serialized := serialized + (" " + NatText(percentiles[i]));
    }
    NoWords(serialized, NatWords(percentiles[|percentiles|..]));
  }

  lemma NoWords(text: string, ws: seq<string>)
    requires ws == []
    ensures text + Spaced(ws) == text
  {
  }

  /** What get_run_stats takes out of the response; the base is kept as it is printed. */
  datatype RunStats = RunStats(processed: int, base: string, lats: map<int, int>, percentiles: seq<int>)

  /** Python's s[lo:hi] */
  function Slice<T>(s: seq<T>, lo: int, hi: int): (r: seq<T>) {
    var a, b := SliceIndex(|s|, lo), SliceIndex(|s|, hi);
    if a < b then s[a..b] else []
  }

  function SliceIndex(n: nat, i: int): (k: nat)
    ensures k <= n
  {
    if i < 0 then (if i + n < 0 then 0 else i + n) else if i > n then n else i
  }

  /** dict(zip(raw[::2], raw[1::2])) */
  function DictOf(raw: seq<int>): map<int, int> {
    if |raw| < 2 then map[] else map[raw[0] := raw[1]] + DictOf(raw[2..])
  }

  predicate AllInts(ws: seq<string>) { forall i :: 0 <= i < |ws| ==> IsIntText(ws[i]) }

  /** list(map(int, ws)) */
  function IntsOf(ws: seq<string>): (ns: seq<int>)
    requires AllInts(ws)
    ensures |ns| == |ws| && forall i :: 0 <= i < |ns| ==> ns[i] == IntOf(ws[i])
  {
    seq(|ws|, i requires 0 <= i < |ws| => IntOf(ws[i]))
  }

  /** The response parsing of get_run_stats: None for its ValueError, IndexError and AssertionError. */
  function ParseResponse(text: string): Option<RunStats> {
    ParseWords(Words(text))
  }

  function ParseWords(words: seq<string>): Option<RunStats> {
    if |words| < 2 || !IsIntText(words[0]) || !AllInts(words[2..]) then None else
    ParseNumbers(IntOf(words[0]), words[1], IntsOf(words[2..]))
  }

  function ParseNumbers(processed: int, base: string, nums: seq<int>): Option<RunStats> {
    if nums == [] then None else
    var latsSize := nums[0];
    var latRaw := Slice(nums, 1, 1 + latsSize * 2);
    var percRaw := Slice(nums, 1 + latsSize * 2, |nums|);
    if percRaw == [] || |percRaw| != percRaw[0] + 1 then None
    else Some(RunStats(processed, base, DictOf(latRaw), percRaw[1..]))
  }

  /** Of two pairs with one key the later one counts, and a number without a partner is ignored. */
  lemma {:induction false} LaterPairCounts(raw: seq<int>, key: int, value: int)
    requires |raw| % 2 == 0
    ensures DictOf(raw + [key, value]) == DictOf(raw)[key := value] && DictOf(raw + [key]) == DictOf(raw)
  {
    if raw == [] {
      assert DictOf([]) == map[] && raw + [key] == [key];
      assert (raw + [key, value])[2..] == [];
    } else {
      LaterPairCounts(raw[2..], key, value);
      assert (raw + [key, value])[2..] == raw[2..] + [key, value] && (raw + [key])[2..] == raw[2..] + [key];
    }
  }

  /**
   Which numbers are taken for a response: after the announced pairs, counted from the end if their number is negative,
   the number of percentiles must be that of all numbers left.
   */
  lemma ParsedIff(processed: int, base: string, nums: seq<int>)
    requires nums != []
    ensures var n, end := |nums|, 1 + 2 * nums[0];
      var start := if end >= 0 then end else if n + end >= 0 then n + end else 0;
      ParseNumbers(processed, base, nums) ==
        if start < n && nums[start] == n - start - 1 then
          Some(RunStats(processed, base, DictOf(if start >= 1 then nums[1..start] else []), nums[start + 1..]))
        else None
  {
    var n, end := |nums|, 1 + 2 * nums[0];
    var start := if end >= 0 then end else if n + end >= 0 then n + end else 0;
    if start < n {
      assert Slice(nums, end, n) == nums[start..] && nums[start..][1..] == nums[start + 1..];
    }
  }

  lemma NatReadsBack(n: nat)
    ensures IsIntText(NatText(n)) && IntOf(NatText(n)) == n
  {
    NatRoundTrip(n);
    assert IsDigit(NatText(n)[0]);
  }

  lemma NatsReadBack(ns: seq<nat>)
    ensures AllInts(NatWords(ns)) && IntsOf(NatWords(ns)) == ns && AllWords(NatWords(ns))
  {
    forall i | 0 <= i < |ns| ensures IsIntText(NatText(ns[i])) && IntOf(NatText(ns[i])) == ns[i] &&
      IsWord(NatText(ns[i])) {
      NatReadsBack(ns[i]);
      NatTextIsWord(ns[i]);
    }
  }

  lemma {:induction false} DictOfPairs(m: map<nat, nat>, order: seq<nat>)
    requires forall i :: 0 <= i < |order| ==> order[i] in m
    ensures forall k: int :: k in DictOf(Pairs(m, order)) <==> k in order
    ensures var d := DictOf(Pairs(m, order));
      forall i :: 0 <= i < |order| ==> order[i] in d && d[order[i]] == m[order[i]]
  {
    if order != [] {
      DictOfPairs(m, order[1..]);
      var pairs := Pairs(m, order);
      assert pairs[2..] == Pairs(m, order[1..]);
      assert order == [order[0]] + order[1..];
    }
  }

  lemma {:induction false} OrderSize(order: seq<nat>, keys: set<nat>)
    requires forall i, j :: 0 <= i < j < |order| ==> order[i] != order[j]
    requires forall k :: k in keys <==> k in order
    ensures |order| == |keys|
  {
    if order == [] {
      assert keys == {};
    } else {
      var tail := order[1..];
      assert order == [order[0]] + tail;
      forall k ensures k in keys - {order[0]} <==> k in tail {
        if k in tail {
          var i :| 0 <= i < |tail| && tail[i] == k;
          assert order[i + 1] == k;
        }
      }
      OrderSize(tail, keys - {order[0]});
    }
  }

  lemma DictReadBack(m: map<nat, nat>, order: seq<nat>)
    requires IsOrder(order, m)
    ensures DictOf(Pairs(m, order)) == m
  {
    DictOfPairs(m, order);
    var d := DictOf(Pairs(m, order));
    forall k: int ensures k in d <==> k in m {
      assert k in order <==> k in m;
    }
    forall k | k in m ensures d[k] == m[k] {
      assert k in order;
    }
  }

  lemma SliceParts(nums: seq<int>, size: int, pairs: seq<int>, tail: seq<int>)
    requires |pairs| == 2 * size && nums == [size] + pairs + tail
    ensures Slice(nums, 1, 1 + size * 2) == pairs && Slice(nums, 1 + size * 2, |nums|) == tail
  {
    assert nums[1..1 + size * 2] == pairs && nums[1 + size * 2..] == tail;
  }

  lemma ParseParts(processed: int, base: string, nums: seq<int>, size: int, pairs: seq<int>, percentiles: seq<int>)
    requires |pairs| == 2 * size && nums == [size] + pairs + ([|percentiles|] + percentiles)
    ensures ParseNumbers(processed, base, nums) == Some(RunStats(processed, base, DictOf(pairs), percentiles))
  {
    hide Slice, DictOf;
    var tail := [|percentiles|] + percentiles;
    SliceParts(nums, size, pairs, tail);
    assert nums[0] == size && tail[1..] == percentiles;
  }

  lemma NumbersReadBack(processed: int, base: string, m: map<nat, nat>, order: seq<nat>, percentiles: seq<nat>)
    requires IsOrder(order, m)
    ensures ParseNumbers(processed, base, ResultNums(m, order, percentiles)) ==
      Some(RunStats(processed, base, m, percentiles))
  {
    hide ParseNumbers, DictOf;
    OrderSize(order, m.Keys);
    DictReadBack(m, order);
    ParseParts(processed, base, ResultNums(m, order, percentiles), |m|, Pairs(m, order), percentiles);
  }

  /** The client's driver recovers the result, whatever the order in which the server walks its map. */
  lemma ResponseRoundTrip(mcount: nat, base: string, m: map<nat, nat>, order: seq<nat>, percentiles: seq<nat>)
    requires IsOrder(order, m) && IsWord(base)
    ensures ParseResponse(ResultText(mcount, base, m, order, percentiles)) ==
      Some(RunStats(mcount, base, m, percentiles))
  {
    hide Words, NatText, ParseNumbers;
    var nums := ResultNums(m, order, percentiles);
    var words := [base] + NatWords(nums);
    NatsReadBack(nums);
    NatTextIsWord(mcount);
    NatReadsBack(mcount);
    WordsOfText(NatText(mcount), words);
    assert ([NatText(mcount)] + words)[2..] == NatWords(nums);
    NumbersReadBack(mcount, base, m, order, percentiles);
  }

  // ---------------------------------------------------------------- a response that is cut short

  /** The words of a prefix of a text: some whole words, and a first part of the next one. */
  lemma {:induction false} WordsOfPrefix(ws: seq<string>, k: nat) returns (j: nat, part: string)
    requires AllWords(ws) && k <= |Spaced(ws)|
    ensures j <= |ws| && Words(Spaced(ws)[..k]) == ws[..j] + (if part == "" then [] else [part])
    ensures part == "" ==> k <= |Spaced(ws[..j])| + 1
    ensures part == "" && j == |ws| ==> k == |Spaced(ws)|
    ensures part != "" ==> j < |ws| && part < ws[j] && k == |Spaced(ws[..j])| + 1 + |part|
  {
    j, part := 0, "";
    if k == 0 || ws == [] {
      NothingSpaced(ws, k);
    } else if k <= |ws[0]| {
      part := ws[0][..k - 1];
      PrefixOfFirst(ws, k);
    } else {
      var first, n := ws[0], k - 1 - |ws[0]|;
      j, part := WordsOfPrefix(ws[1..], n);
      PrefixBeyondFirst(ws, k);
      hide Words, Spaced;
      SpacedTail(ws, j);
      assert ws[..j + 1] == [first] + ws[1..][..j];
      j := j + 1;
    }
  }

  lemma NothingSpaced(ws: seq<string>, k: nat)
    requires k <= |Spaced(ws)| && (k == 0 || ws == [])
    ensures Words(Spaced(ws)[..k]) == ws[..0] + [] && k == 0
    ensures ws == [] ==> k == |Spaced(ws)|
  {
    assert Spaced(ws)[..k] == "" && ws[..0] == [];
  }

  lemma PrefixOfFirst(ws: seq<string>, k: nat)
    requires AllWords(ws) && ws != [] && 1 <= k <= |ws[0]| && k <= |Spaced(ws)|
    ensures var part := ws[0][..k - 1];
      Words(Spaced(ws)[..k]) == ws[..0] + (if part == "" then [] else [part]) && Spaced(ws[..0]) == ""
  {
    hide *;
    var part := ws[0][..k - 1];
    FirstAndRest(ws);
    NoneSpaced(ws);
    PrefixInFirst(ws[0], Spaced(ws[1..]), k);
    SpaceIsSkipped(part);
    PartIsWord(ws[0], k - 1);
  }

  lemma NoneSpaced(ws: seq<string>)
    ensures ws[..0] == [] && Spaced(ws[..0]) == ""
  {
  }

  lemma PrefixInFirst(first: string, rest: string, k: nat)
    requires 1 <= k <= |first|
    ensures (" " + first + rest)[..k] == " " + first[..k - 1]
  {
  }

  /** A first part of a word is a word, or nothing. */
  lemma PartIsWord(word: string, n: nat)
    requires IsWord(word) && n <= |word|
    ensures Words(word[..n]) == if word[..n] == "" then [] else [word[..n]]
  {
    var part := word[..n];
    if part != "" {
      assert part + "" == part && IsWord(part);
      WordThenRest(part, "");
    }
  }

  lemma PrefixBeyondFirst(ws: seq<string>, k: nat)
    requires AllWords(ws) && ws != [] && |ws[0]| < k <= |Spaced(ws)|
    ensures var n := k - 1 - |ws[0]|;
      n <= |Spaced(ws[1..])| && Words(Spaced(ws)[..k]) == [ws[0]] + Words(Spaced(ws[1..])[..n])
  {
    hide *;
    FirstAndRest(ws);
    PrefixOfWordAndRest(ws[0], Spaced(ws[1..]), k - 1 - |ws[0]|);
  }

  lemma FirstAndRest(ws: seq<string>)
    requires AllWords(ws) && ws != []
    ensures Spaced(ws) == " " + ws[0] + Spaced(ws[1..]) && IsWord(ws[0])
    ensures Spaced(ws[1..]) == "" || IsSpace(Spaced(ws[1..])[0])
  {
    hide IsWord;
  }

  lemma PrefixOfWordAndRest(first: string, rest: string, n: nat)
    requires IsWord(first) && n <= |rest| && (rest == "" || IsSpace(rest[0]))
    ensures Words((" " + first + rest)[..1 + |first| + n]) == [first] + Words(rest[..n])
  {
    hide *;
    var tail := rest[..n];
    PrefixOfThree(first, rest, n);
    SpaceIsSkipped(first + tail);
    PrefixStarts(rest, n);
    WordThenRest(first, tail);
  }

  lemma PrefixOfThree(first: string, rest: string, n: nat)
    requires n <= |rest|
    ensures (" " + first + rest)[..1 + |first| + n] == " " + (first + rest[..n])
  {
  }

  lemma PrefixStarts(rest: string, n: nat)
    requires n <= |rest| && (rest == "" || IsSpace(rest[0]))
    ensures rest[..n] == "" || IsSpace(rest[..n][0])
  {
  }

  /** The lengths of the first words, without and with the first. */
  lemma SpacedTail(ws: seq<string>, j: nat)
    requires ws != [] && j < |ws|
    ensures |Spaced(ws[..j + 1])| == 1 + |ws[0]| + |Spaced(ws[1..][..j])|
    ensures |Spaced(ws)| == 1 + |ws[0]| + |Spaced(ws[1..])|
  {
    assert ws[..j + 1][1..] == ws[1..][..j];
  }

  lemma WordThenRest(first: string, rest: string)
    requires IsWord(first) && (rest == "" || IsSpace(rest[0]))
    ensures Words(first + rest) == [first] + Words(rest)
  {
    WordSpanStops(first, rest);
    var all := first + rest;
    assert all[0] == first[0] && all[..|first|] == first && all[|first|..] == rest;
  }

  /** A first part of a number's digits is a smaller number, and not zero. */
  lemma {:induction false} CutNumber(n: nat, part: string)
    requires part != "" && part < NatText(n)
    ensures IsIntText(part) && 1 <= IntOf(part) < n
  {
    var text := NatText(n);
    assert n >= 10;
    var shorter := NatText(n / 10);
    assert text == shorter + [Digit(n % 10)];
    assert part == text[..|part|] == shorter[..|part|];
    if |part| == |shorter| {
      assert part == shorter;
      NatReadsBack(n / 10);
    } else {
      CutNumber(n / 10, part);
    }
  }

  /** A first part of the numbers of a result is not taken for a result. */
  lemma CutNumbers(m: map<nat, nat>, order: seq<nat>, percentiles: seq<nat>, processed: int, base: string, i: nat)
    requires IsOrder(order, m) && i < |ResultNums(m, order, percentiles)|
    ensures ParseNumbers(processed, base, ResultNums(m, order, percentiles)[..i]) == None
  {
    OrderSize(order, m.Keys);
    CutList(processed, base, ResultNums(m, order, percentiles)[..i], |m|);
  }

  lemma ChangedLast(m: map<nat, nat>, order: seq<nat>, percentiles: seq<nat>, x: nat)
    requires percentiles != [] && forall i :: 0 <= i < |order| ==> order[i] in m
    ensures var nums, n := ResultNums(m, order, percentiles), |percentiles| - 1;
      nums[..|nums| - 1] + [x] == ResultNums(m, order, percentiles[..n] + [x])
  {
    var head, n := [|m|] + Pairs(m, order), |percentiles| - 1;
    var nums := ResultNums(m, order, percentiles);
    assert nums == head + ([|percentiles|] + percentiles);
    assert nums[..|nums| - 1] == head + ([|percentiles|] + percentiles[..n]);
  }

  /** With another last number, it is only if that number is the last percentile. */
  lemma ChangedNumber(m: map<nat, nat>, order: seq<nat>, percentiles: seq<nat>, processed: int, base: string,
      i: nat, x: nat)
    requires IsOrder(order, m) && i < |ResultNums(m, order, percentiles)| && 1 <= x
    ensures ParseNumbers(processed, base, ResultNums(m, order, percentiles)[..i] + [x]) ==
      if percentiles != [] && i == |ResultNums(m, order, percentiles)| - 1
      then Some(RunStats(processed, base, m, percentiles[..|percentiles| - 1] + [x])) else None
  {
    hide ParseNumbers;
    OrderSize(order, m.Keys);
    var nums: seq<int> := ResultNums(m, order, percentiles);
    if percentiles != [] && i == |nums| - 1 {
      var changed := percentiles[..|percentiles| - 1] + [x];
      ChangedLast(m, order, percentiles, x);
      hide ResultNums;
      NumbersReadBack(processed, base, m, order, changed);
    } else if i == 0 {
      assert nums[..0] + [x] == [x];
      CutList(processed, base, [x], x);
    } else {
      CutList(processed, base, nums[..i] + [x], |m|);
    }
  }

  /** Too few numbers, or a count of percentiles that is not theirs. */
  lemma CutList(processed: int, base: string, cut: seq<int>, size: nat)
    requires cut != [] ==> cut[0] == size
    requires |cut| > 1 + 2 * size ==> cut[1 + 2 * size] >= 0 && |cut| != 2 + 2 * size + cut[1 + 2 * size]
    ensures ParseNumbers(processed, base, cut) == None
  {
    if |cut| > 1 + 2 * size {
      assert Slice(cut, 1 + size * 2, |cut|)[0] == cut[1 + 2 * size];
    }
  }

  /** All words of a result's text. */
  function AllWordsOf(mcount: nat, base: string, m: map<nat, nat>, order: seq<nat>, percentiles: seq<nat>)
    : (ws: seq<string>)
    requires forall i :: 0 <= i < |order| ==> order[i] in m
    ensures |ws| == 2 + |ResultNums(m, order, percentiles)|
  {
    [NatText(mcount), base] + NatWords(ResultNums(m, order, percentiles))
  }

  lemma WordsOfFirst(mcount: nat, base: string, nums: seq<nat>, j: nat)
    requires 2 <= j <= 2 + |nums|
    ensures ([NatText(mcount), base] + NatWords(nums))[..j][2..] == NatWords(nums[..j - 2])
  {
    hide NatText;
    var all := [NatText(mcount), base] + NatWords(nums);
    assert all[..j] == [NatText(mcount), base] + NatWords(nums)[..j - 2];
    assert NatWords(nums)[..j - 2] == NatWords(nums[..j - 2]);
  }

  /** Whole words only: too few numbers. */
  lemma CutBetweenWords(mcount: nat, base: string, m: map<nat, nat>, order: seq<nat>, percentiles: seq<nat>, j: nat)
    requires IsOrder(order, m) && j < 2 + |ResultNums(m, order, percentiles)|
    ensures ParseWords(AllWordsOf(mcount, base, m, order, percentiles)[..j]) == None
  {
    hide NatText, ParseNumbers;
    if j >= 2 {
      var nums := ResultNums(m, order, percentiles);
      var words := AllWordsOf(mcount, base, m, order, percentiles)[..j];
      NatsReadBack(nums[..j - 2]);
      WordsOfFirst(mcount, base, nums, j);
      CutNumbers(m, order, percentiles, IntOf(words[0]), base, j - 2);
    }
  }

  /** The last word is not as it was. */
  lemma CutInWord(mcount: nat, base: string, m: map<nat, nat>, order: seq<nat>, percentiles: seq<nat>, j: nat,
      part: string)
    returns (x: nat)
    requires IsOrder(order, m) && j < 2 + |ResultNums(m, order, percentiles)| && part != ""
    requires part < AllWordsOf(mcount, base, m, order, percentiles)[j]
    ensures ParseWords(AllWordsOf(mcount, base, m, order, percentiles)[..j] + [part]) ==
      if percentiles != [] && j == 1 + |ResultNums(m, order, percentiles)|
      then Some(RunStats(mcount, base, m, percentiles[..|percentiles| - 1] + [x])) else None
    ensures percentiles != [] && j == 1 + |ResultNums(m, order, percentiles)| ==> x < percentiles[|percentiles| - 1]
  {
    hide NatText, ParseNumbers;
    x := 0;
    var nums := ResultNums(m, order, percentiles);
    var words := AllWordsOf(mcount, base, m, order, percentiles)[..j] + [part];
    if j == 1 {
      assert words[2..] == [] && IntsOf([]) == [];
      EmptyNumbers(IntOf(words[0]), words[1]);
    } else if j >= 2 {
      CutNumber(nums[j - 2], part);
      x := IntOf(part);
      NatsReadBack(nums[..j - 2]);
      NatReadsBack(mcount);
      var ws := NatWords(nums[..j - 2]);
      WordsOfFirst(mcount, base, nums, j);
      assert words[2..] == ws + [part];
      assert IntsOf(ws + [part]) == IntsOf(ws) + [x];
      ChangedNumber(m, order, percentiles, mcount, base, j - 2, x);
    }
  }

  lemma EmptyNumbers(processed: int, base: string)
    ensures ParseNumbers(processed, base, []) == None
  {
  }

  lemma SpacedGrows(ws: seq<string>, j: nat)
    requires j < |ws|
    ensures |Spaced(ws)| >= |Spaced(ws[..j])| + 1 + |ws[j]|
    ensures j == |ws| - 1 ==> |Spaced(ws)| == |Spaced(ws[..j])| + 1 + |ws[j]|
  {
    assert ws == ws[..j] + ([ws[j]] + ws[j + 1..]);
    SpacedAppend(ws[..j], [ws[j]] + ws[j + 1..]);
    OneWord("", ws[j], ws[j + 1..]);
    assert j == |ws| - 1 ==> ws[j + 1..] == [];
  }

  /** The lengths of the first j words, and of all but the last. */
  lemma SpacedBeforeLast(ws: seq<string>, j: nat)
    requires j < |ws|
    ensures |Spaced(ws[..j])| <= |Spaced(ws)| - 1 - |ws[|ws| - 1]|
    ensures j < |ws| - 1 ==> |Spaced(ws[..j])| + 1 + |ws[j]| <= |Spaced(ws)| - 1 - |ws[|ws| - 1]|
  {
    var n := |ws| - 1;
    SpacedGrows(ws, n);
    if j < n {
      SpacedGrows(ws[..n], j);
      assert ws[..n][..j] == ws[..j];
    }
  }

  /** Whether the cut is in the last word can be told from the lengths. */
  lemma CutPosition(ws: seq<string>, k: nat, j: nat, part: string)
    requires ws != [] && j < |ws|
    requires part == "" ==> k <= |Spaced(ws[..j])| + 1
    requires part != "" ==> part < ws[j] && k == |Spaced(ws[..j])| + 1 + |part|
    ensures part != "" && j == |ws| - 1 <==> |Spaced(ws)| < k + |ws[|ws| - 1]|
  {
    hide Spaced;
    SpacedBeforeLast(ws, j);
    SpacedGrows(ws, |ws| - 1);
  }

  lemma LastWord(mcount: nat, base: string, m: map<nat, nat>, order: seq<nat>, percentiles: seq<nat>)
    requires forall i :: 0 <= i < |order| ==> order[i] in m
    ensures var ws := AllWordsOf(mcount, base, m, order, percentiles);
      percentiles != [] ==> ws[|ws| - 1] == NatText(percentiles[|percentiles| - 1])
  {
    hide NatText;
  }

  /** The first k characters of a text with these words are its first j words and a first part of the next one. */
  predicate CutAt(text: string, ws: seq<string>, k: nat, j: nat, part: string) {
    && k <= |text| && j < |ws| && Words(text[..k]) == (if part == "" then ws[..j] else ws[..j] + [part])
    && (part != "" ==> part < ws[j])
    && (part != "" && j == |ws| - 1 <==> |text| < k + |ws[|ws| - 1]|)
  }

  /** The words of a cut text, and where it is cut. */
  lemma WordsOfCut(text: string, ws: seq<string>, k: nat) returns (j: nat, part: string)
    requires ws != [] && AllWords(ws) && |Spaced(ws)| == 1 + |text| && k < |text|
    requires Words(text[..k]) == Words(Spaced(ws)[..k + 1])
    ensures CutAt(text, ws, k, j, part)
  {
    hide Words, AllWords, Spaced;
    j, part := WordsOfPrefix(ws, k + 1);
    WholePrefix(ws, j);
    CutPosition(ws, k + 1, j, part);
  }

  lemma WholePrefix(ws: seq<string>, j: nat)
    requires j <= |ws|
    ensures ws[..j] + [] == ws[..j] && (j == |ws| ==> ws[..j] == ws)
  {
  }

  /** The text of a result is its words, but for the space before the first. */
  lemma TextOfWords(mcount: nat, base: string, m: map<nat, nat>, order: seq<nat>, percentiles: seq<nat>, k: nat)
    requires IsOrder(order, m) && IsWord(base) && k <= |ResultText(mcount, base, m, order, percentiles)|
    ensures var text := ResultText(mcount, base, m, order, percentiles);
      var ws := AllWordsOf(mcount, base, m, order, percentiles);
      && ws != [] && AllWords(ws) && |Spaced(ws)| == 1 + |text| && Words(text[..k]) == Words(Spaced(ws)[..k + 1])
  {
    var words := [base] + NatWords(ResultNums(m, order, percentiles));
    SplitText(mcount, base, m, order, percentiles);
    AllAreWords(mcount, base, ResultNums(m, order, percentiles));
    hide *;
    WholeText(NatText(mcount), words, k);
  }

  lemma SplitText(mcount: nat, base: string, m: map<nat, nat>, order: seq<nat>, percentiles: seq<nat>)
    requires forall i :: 0 <= i < |order| ==> order[i] in m
    ensures var words := [base] + NatWords(ResultNums(m, order, percentiles));
      && ResultText(mcount, base, m, order, percentiles) == NatText(mcount) + Spaced(words)
      && AllWordsOf(mcount, base, m, order, percentiles) == [NatText(mcount)] + words
  {
    hide NatText, NatWords, ResultNums, Spaced;
  }

  lemma AllAreWords(mcount: nat, base: string, nums: seq<nat>)
    requires IsWord(base)
    ensures AllWords([NatText(mcount)] + ([base] + NatWords(nums)))
  {
    hide NatText, NatWords, IsWord;
    NatTextIsWord(mcount);
    NatsReadBack(nums);
  }

  /**
   A response that is cut short is taken for a result exactly when it is cut between two digits of its last number
   and that number is a percentile; the result is then wrong in that percentile, and in nothing else.
   */
  lemma CutResponseIff(mcount: nat, base: string, m: map<nat, nat>, order: seq<nat>, percentiles: seq<nat>, k: nat)
    returns (x: nat)
    requires IsOrder(order, m) && IsWord(base) && k < |ResultText(mcount, base, m, order, percentiles)|
    ensures var text := ResultText(mcount, base, m, order, percentiles);
      if percentiles != [] && |text| < k + |NatText(percentiles[|percentiles| - 1])| then
        && x < percentiles[|percentiles| - 1]
        && ParseResponse(text[..k]) == Some(RunStats(mcount, base, m, percentiles[..|percentiles| - 1] + [x]))
      else ParseResponse(text[..k]) == None
  {
    hide Words, NatText, ParseWords, ResultNums, ResultText, AllWordsOf, NatWords, AllWords, Spaced, IsWord;
    x := 0;
    LastWord(mcount, base, m, order, percentiles);
    TextOfWords(mcount, base, m, order, percentiles, k);
    var text, ws := ResultText(mcount, base, m, order, percentiles), AllWordsOf(mcount, base, m, order, percentiles);
    var j, part := WordsOfCut(text, ws, k);
    if part == "" {
      CutBetweenWords(mcount, base, m, order, percentiles, j);
    } else {
      x := CutInWord(mcount, base, m, order, percentiles, j, part);
    }
  }

  lemma WholeText(first: string, ws: seq<string>, k: nat)
    requires k <= |first + Spaced(ws)|
    ensures |Spaced([first] + ws)| == 1 + |first + Spaced(ws)|
    ensures Words((first + Spaced(ws))[..k]) == Words(Spaced([first] + ws)[..k + 1])
  {
    var text := first + Spaced(ws);
    OneWord("", first, ws);
    assert Spaced([first] + ws) == " " + text;
    assert (" " + text)[..k + 1] == " " + text[..k];
    SpaceIsSkipped(text[..k]);
  }

  // ---------------------------------------------------------------- the request, from Python to C++

  datatype Params = Params(ip: string, port: int, numConn: int, runtime: int, minTimeout: int, maxTimeout: int,
    messageLen: int)

  /** The string ready_func sends. */
  function RequestText(p: Params): string {
    p.ip + Spaced([IntText(p.port), IntText(p.numConn), IntText(p.runtime),
                   IntText(p.minTimeout), IntText(p.maxTimeout), IntText(p.messageLen)])
  }

  /** sizeof(params.ip) */
  const IP_SIZE := 1025

  /** The conversions %d and %lu. */
  datatype Conversion = Int32 | UInt64

  function SkipSpaces(s: string): (r: string)
    ensures |r| <= |s|
  {
    if s != "" && IsSpace(s[0]) then SkipSpaces(s[1..]) else s
  }

  function ScanDigits(s: string): (r: Option<(nat, string)>)
    ensures r.Some? ==> |r.value.1| < |s|
  {
    var n := DigitSpan(s);
    if n == 0 then None else Some((NatOf(s[..n]), s[n..]))
  }

  /** A decimal number after white space, with an optional sign, and what follows it. */
  function ScanNumber(s: string): (r: Option<(int, string)>)
    ensures r.Some? ==> |r.value.1| < |s|
  {
    var t := SkipSpaces(s);
    var digits := ScanDigits(if t != "" && (t[0] == '-' || t[0] == '+') then t[1..] else t);
    if digits.None? then None
    else Some((if t[0] == '-' then 0 - digits.value.0 else digits.value.0, digits.value.1))
  }

  /** A number may be written with a plus sign. */
  lemma PlusIsRead(n: nat, rest: string)
    requires rest == "" || !IsDigit(rest[0])
    ensures ScanNumber("+" + (NatText(n) + rest)) == ScanNumber(NatText(n) + rest) == Some((n as int, rest))
  {
    var digits := NatText(n);
    NatRoundTrip(n);
    DigitSpanStops(digits, rest);
    assert IsDigit(digits[0]) && (digits + rest)[0] == digits[0];
    hide NatText, NatOf, DigitSpan;
    assert ("+" + (digits + rest))[1..] == digits + rest;
    assert (digits + rest)[..|digits|] == digits && (digits + rest)[|digits|..] == rest;
  }

  /** What a conversion stores: %lu negates modulo 2^64; None where the C standard leaves the result undefined. */
  function Convert(v: int, c: Conversion): Option<int> {
    match c
    case Int32 => if -0x8000_0000 <= v < 0x8000_0000 then Some(v) else None
    case UInt64 =>
      if -0x1_0000_0000_0000_0000 < v < 0 then Some(v + 0x1_0000_0000_0000_0000)
      else if 0 <= v < 0x1_0000_0000_0000_0000 then Some(v) else None
  }

  /** The numbers that could be converted, and whether their values are defined. */
  datatype Scanned = Scanned(values: seq<int>, defined: bool)

  function ScanNumbers(s: string, conversions: seq<Conversion>): (r: Scanned)
    ensures |r.values| <= |conversions|
    decreases |conversions|
  {
    if conversions == [] then Scanned([], true) else
    var first := ScanNumber(s);
    if first.None? then Scanned([], true) else
    var rest := ScanNumbers(first.value.1, conversions[1..]);
    match Convert(first.value.0, conversions[0])
    case None => Scanned([first.value.0] + rest.values, false)
    case Some(v) => Scanned([v] + rest.values, rest.defined)
  }

  datatype Loaded = Accepted(params: Params) | Refused | Undefined

  const FORMAT: seq<Conversion> := [Int32, Int32, Int32, UInt64, UInt64, Int32]

  /** load_from_str, for a C string. */
  function LoadFromStr(data: string): Loaded {
    if |data| > IP_SIZE then Refused else
    var t := SkipSpaces(data);
    var n := WordSpan(t);
    if n == 0 then Refused
    else if n >= IP_SIZE then Undefined   // no room for the terminating zero
    else
    var scanned := ScanNumbers(t[n..], FORMAT);
    if !scanned.defined then Undefined
    else if 1 + |scanned.values| != 7 then Refused
    else
      var v := scanned.values;
      if v[3] > v[4] then Refused else Accepted(Params(t[..n], v[0], v[1], v[2], v[3], v[4], v[5]))
  }

  predicate InRange(p: Params) {
    Convert(p.port, Int32) == Some(p.port) && Convert(p.numConn, Int32) == Some(p.numConn) &&
    Convert(p.runtime, Int32) == Some(p.runtime) && Convert(p.minTimeout, UInt64) == Some(p.minTimeout) &&
    Convert(p.maxTimeout, UInt64) == Some(p.maxTimeout) && Convert(p.messageLen, Int32) == Some(p.messageLen)
  }

  lemma ScanNat(n: nat, rest: string)
    requires rest == "" || rest[0] == ' '
    ensures ScanDigits(NatText(n) + rest) == Some((n, rest)) && IsDigit((NatText(n) + rest)[0])
  {
    var digits := NatText(n);
    NatRoundTrip(n);
    DigitSpanStops(digits, rest);
    assert IsDigit(digits[0]);
    assert (digits + rest)[..|digits|] == digits && (digits + rest)[|digits|..] == rest;
  }

  lemma SkipOne(t: string)
    requires t != "" && !IsSpace(t[0])
    ensures SkipSpaces(" " + t) == t
  {
    assert (" " + t)[1..] == t && SkipSpaces(t) == t;
  }

  lemma ScanOne(v: int, rest: string)
    requires rest == "" || rest[0] == ' '
    ensures ScanNumber(" " + IntText(v) + rest) == Some((v, rest))
  {
    hide SkipSpaces, ScanDigits, NatText;
    var n := if v < 0 then -v else v;
    ScanNat(n, rest);
    var t := IntText(v) + rest;
    assert t == if v < 0 then "-" + (NatText(n) + rest) else NatText(n) + rest;
    assert v < 0 ==> t[1..] == NatText(n) + rest;
    SkipOne(t);
    assert " " + IntText(v) + rest == " " + t;
  }

  ghost predicate AllDefined(vs: seq<int>, conversions: seq<Conversion>)
    requires |vs| <= |conversions|
  {
    forall i :: 0 <= i < |vs| ==> Convert(vs[i], conversions[i]).Some?
  }

  /** The texts of numbers are scanned one by one, up to the last one or the last conversion. */
  lemma {:induction false} ScanBack(vs: seq<int>, ws: seq<string>, rest: string, conversions: seq<Conversion>)
    requires |vs| == |ws| <= |conversions| && forall i :: 0 <= i < |vs| ==> ws[i] == IntText(vs[i])
    requires if |vs| == |conversions| then rest == "" || rest[0] == ' ' else rest == ""
    ensures var r := ScanNumbers(Spaced(ws) + rest, conversions);
      && |r.values| == |vs| && (r.defined <==> AllDefined(vs, conversions))
      && (r.defined ==> forall i :: 0 <= i < |vs| ==> Some(r.values[i]) == Convert(vs[i], conversions[i]))
  {
    hide IntText, Convert;
    if vs == [] {
      NothingToScan(rest, conversions);
      assert Spaced(ws) + rest == rest;
    } else {
      var tail := Spaced(ws[1..]) + rest;
      assert tail == "" || tail[0] == ' ';
      ScanOne(vs[0], tail);
      assert Spaced(ws) + rest == " " + ws[0] + tail;
      hide ScanNumber, Spaced;
      ScanBack(vs[1..], ws[1..], rest, conversions[1..]);
      DefinedHead(vs, conversions);
      hide AllDefined;
      FirstScanned(vs, tail, Spaced(ws) + rest, conversions);
    }
  }

  lemma DefinedHead(vs: seq<int>, conversions: seq<Conversion>)
    requires vs != [] && |vs| <= |conversions|
    ensures AllDefined(vs, conversions) <==>
      Convert(vs[0], conversions[0]).Some? && AllDefined(vs[1..], conversions[1..])
  {
    hide Convert;
  }

  /** The first number, and those after it. */
  lemma FirstScanned(vs: seq<int>, tail: string, text: string, conversions: seq<Conversion>)
    requires vs != [] && conversions != [] && ScanNumber(text) == Some((vs[0], tail))
    ensures var rest, r := ScanNumbers(tail, conversions[1..]), ScanNumbers(text, conversions);
      match Convert(vs[0], conversions[0])
      case None => r == Scanned([vs[0]] + rest.values, false)
      case Some(v) => r == Scanned([v] + rest.values, rest.defined)
  {
    hide ScanNumber, Convert;
  }

  lemma NothingToScan(rest: string, conversions: seq<Conversion>)
    requires conversions == [] || rest == ""
    ensures ScanNumbers(rest, conversions) == Scanned([], true)
  {
  }

  /** The numbers of a request and their texts. */
  function RequestNums(p: Params): (r: seq<int>)
    ensures |r| == 6
  {
    [p.port, p.numConn, p.runtime, p.minTimeout, p.maxTimeout, p.messageLen]
  }

  function IntWords(vs: seq<int>): (ws: seq<string>)
    ensures |ws| == |vs| && forall i :: 0 <= i < |ws| ==> ws[i] == IntText(vs[i])
  {
    seq(|vs|, i requires 0 <= i < |vs| => IntText(vs[i]))
  }

  lemma RequestTextIs(p: Params)
    ensures RequestText(p) == p.ip + Spaced(IntWords(RequestNums(p)))
  {
    hide IntText, Spaced;
    assert IntWords(RequestNums(p)) == [IntText(p.port), IntText(p.numConn), IntText(p.runtime),
      IntText(p.minTimeout), IntText(p.maxTimeout), IntText(p.messageLen)];
  }

  predicate IsInt32(v: int) { -0x8000_0000 <= v < 0x8000_0000 }

  const TWO_64 := 0x1_0000_0000_0000_0000

  /** All numbers have a value as the type they are scanned into: an int, or an unsigned long modulo 2^64. */
  predicate Representable(p: Params) {
    && IsInt32(p.port) && IsInt32(p.numConn) && IsInt32(p.runtime) && IsInt32(p.messageLen)
    && -TWO_64 < p.minTimeout < TWO_64 && -TWO_64 < p.maxTimeout < TWO_64
  }

  /** What is left of a text behind its first word. */
  lemma BehindTheAddress(ip: string, rest: string)
    requires IsWord(ip) && (rest == "" || rest[0] == ' ')
    ensures var t := SkipSpaces(ip + rest);
      t == ip + rest && WordSpan(t) == |ip| && t[..WordSpan(t)] == ip && t[WordSpan(t)..] == rest
  {
    WordSpanStops(ip, rest);
    var text := ip + rest;
    assert text[0] == ip[0] && SkipSpaces(text) == text;
    assert text[..|ip|] == ip && text[|ip|..] == rest;
  }

  /** The text of a request is its address, and the numbers behind it. */
  lemma RequestSplits(p: Params, rest: string) returns (numbers: string)
    requires IsWord(p.ip) && (rest == "" || rest[0] == ' ')
    ensures RequestText(p) + rest == p.ip + numbers && numbers != "" && numbers[0] == ' '
    ensures numbers == Spaced(IntWords(RequestNums(p))) + rest
  {
    RequestTextIs(p);
    SpacedStarts(IntWords(RequestNums(p)));
    hide *;
    numbers := Spaced(IntWords(RequestNums(p))) + rest;
  }

  lemma NumbersOfRequest(p: Params, rest: string)
    requires rest == "" || rest[0] == ' '
    ensures var r := ScanNumbers(Spaced(IntWords(RequestNums(p))) + rest, FORMAT);
      && |r.values| == 6 && (r.defined <==> Representable(p))
      && (r.defined ==>
        r.values == [p.port, p.numConn, p.runtime, p.minTimeout % TWO_64, p.maxTimeout % TWO_64, p.messageLen])
  {
    hide ScanNumbers, Spaced, AllDefined, Representable, IntText;
    var vs := RequestNums(p);
    var r := ScanNumbers(Spaced(IntWords(vs)) + rest, FORMAT);
    DefinedIffRepresentable(p);
    ScanBack(vs, IntWords(vs), rest, FORMAT);
    if r.defined {
      assert Some(r.values[0]) == Convert(vs[0], FORMAT[0]) && Some(r.values[1]) == Convert(vs[1], FORMAT[1]);
      assert Some(r.values[2]) == Convert(vs[2], FORMAT[2]) && Some(r.values[5]) == Convert(vs[5], FORMAT[5]);
      assert Some(r.values[3]) == Convert(vs[3], FORMAT[3]) && Some(r.values[4]) == Convert(vs[4], FORMAT[4]);
    }
  }

  /**
   What the server makes of a request with any numbers, and with anything after it behind a space: it is refused for
   its length or for swapped timeouts; otherwise a negative timeout counts modulo 2^64, and the rest is as sent.
   */
  lemma RequestIsLoaded(p: Params, rest: string)
    requires IsWord(p.ip) && (rest == "" || rest[0] == ' ')
    ensures LoadFromStr(RequestText(p) + rest) ==
      var low, high := p.minTimeout % TWO_64, p.maxTimeout % TWO_64;
      if |RequestText(p) + rest| > 1025 then Refused
      else if !Representable(p) then Undefined
      else if low > high then Refused
      else Accepted(p.(minTimeout := low, maxTimeout := high))
  {
    hide ScanNumbers, Spaced, IntWords, RequestText, Representable, SkipSpaces, WordSpan, RequestNums;
    assert p.ip != "";
    var numbers := RequestSplits(p, rest);
    BehindTheAddress(p.ip, numbers);
    NumbersOfRequest(p, rest);
  }

  lemma DefinedIffRepresentable(p: Params)
    ensures AllDefined(RequestNums(p), FORMAT) <==> Representable(p)
    ensures Representable(p) ==>
      && Convert(p.minTimeout, UInt64) == Some(p.minTimeout % TWO_64)
      && Convert(p.maxTimeout, UInt64) == Some(p.maxTimeout % TWO_64)
  {
    var vs := RequestNums(p);
    if AllDefined(vs, FORMAT) {
      assert Convert(vs[0], FORMAT[0]).Some? && Convert(vs[1], FORMAT[1]).Some? && Convert(vs[2], FORMAT[2]).Some?;
      assert Convert(vs[3], FORMAT[3]).Some? && Convert(vs[4], FORMAT[4]).Some? && Convert(vs[5], FORMAT[5]).Some?;
    }
  }

  /** A request with fewer numbers is refused, unless its address alone leaves no room for the terminating zero. */
  lemma ShortRequestIsRefused(p: Params, k: nat)
    requires InRange(p) && IsWord(p.ip) && k < 6
    ensures LoadFromStr(p.ip + Spaced(IntWords(RequestNums(p)[..k]))) ==
      if k == 0 && |p.ip| == 1025 then Undefined else Refused
  {
    var vs := RequestNums(p)[..k];
    var numbers := Spaced(IntWords(vs));
    assert numbers == "" || numbers[0] == ' ';
    FirstAreDefined(p, k);
    TooFewNumbers(vs);
    BehindTheAddress(p.ip, numbers);
    SpacedIsLonger(IntWords(vs));
    hide ScanNumbers, Spaced, IntWords, AllDefined, SkipSpaces, WordSpan, IsWord, InRange, RequestNums;
  }

  lemma FirstAreDefined(p: Params, k: nat)
    requires InRange(p) && k <= 6
    ensures AllDefined(RequestNums(p)[..k], FORMAT)
  {
  }

  lemma TooFewNumbers(vs: seq<int>)
    requires |vs| < |FORMAT| && AllDefined(vs, FORMAT)
    ensures var r := ScanNumbers(Spaced(IntWords(vs)), FORMAT); r.defined && |r.values| == |vs|
  {
    hide AllDefined, ScanNumbers, Spaced;
    ScanBack(vs, IntWords(vs), "", FORMAT);
    assert Spaced(IntWords(vs)) + "" == Spaced(IntWords(vs));
  }

  lemma SpacedIsLonger(ws: seq<string>)
    ensures Spaced(ws) == "" <==> ws == []
  {
  }

  /** The server loads exactly what the driver sent, unless the text is too long or the timeouts are swapped. */
  lemma RequestRoundTrip(p: Params)
    requires InRange(p) && IsWord(p.ip)
    ensures LoadFromStr(RequestText(p)) ==
      (if |RequestText(p)| <= 1025 && p.minTimeout <= p.maxTimeout then Accepted(p) else Refused)
  {
    InRangeIsKept(p);
    hide *;
    RequestIsLoaded(p, "");
    assert RequestText(p) + "" == RequestText(p);
  }

  lemma InRangeIsKept(p: Params)
    requires InRange(p)
    ensures Representable(p) && p.minTimeout % TWO_64 == p.minTimeout && p.maxTimeout % TWO_64 == p.maxTimeout
  {
  }

  lemma SpacedStarts(ws: seq<string>)
    requires ws != []
    ensures Spaced(ws) != "" && Spaced(ws)[0] == ' '
  {
  }

  /** The request survives exactly when its address is one word, its text fits and its timeouts are in order. */
  lemma RequestRoundTripIff(p: Params)
    requires InRange(p)
    ensures LoadFromStr(RequestText(p)) == Accepted(p) <==>
            IsWord(p.ip) && |RequestText(p)| <= 1025 && p.minTimeout <= p.maxTimeout
  {
    hide ScanNumbers, Spaced, InRange;
    if IsWord(p.ip) {
      RequestRoundTrip(p);
    }
  }

  lemma {:induction false} ScannedInRange(s: string, conversions: seq<Conversion>)
    ensures var r := ScanNumbers(s, conversions);
      r.defined ==> forall i :: 0 <= i < |r.values| ==> Convert(r.values[i], conversions[i]) == Some(r.values[i])
    decreases |conversions|
  {
    hide ScanNumber;
    if conversions != [] {
      var first := ScanNumber(s);
      if first.Some? {
        ScannedInRange(first.value.1, conversions[1..]);
      }
    }
  }

  /** What is accepted makes sense, and is accepted unchanged when it is sent on, if it still fits. */
  lemma AcceptedIsStable(data: string)
    requires LoadFromStr(data).Accepted?
    ensures var p := LoadFromStr(data).params;
      && IsWord(p.ip) && InRange(p) && p.minTimeout <= p.maxTimeout
      && (|RequestText(p)| <= 1025 ==> LoadFromStr(RequestText(p)) == Accepted(p))
  {
    hide ScanNumbers, Convert;
    var t := SkipSpaces(data);
    ScannedInRange(t[WordSpan(t)..], FORMAT);
    RequestRoundTrip(LoadFromStr(data).params);
  }
}
