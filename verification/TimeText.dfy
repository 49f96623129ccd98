/** ns_to_readable of main.py, and stime_to_ns of plot_tests_results.py, which reads its answers. */
module TimeText {
  import opened Totals
  import opened Text

  /** The suffixes before "s", largest unit first. */
  datatype Unit = Unit(limit: nat, ext: string)

  const UNITS: seq<Unit> := [Unit(1_000_000_000, ""), Unit(1_000_000, "m"), Unit(1_000, "u"), Unit(1, "n")]

  /** The first unit from position i on that is not larger than val. */
  function FirstUnit(val: int, i: nat): (u: Option<Unit>)
    requires i <= |UNITS|
    ensures u.Some? ==> u.value in UNITS && val >= u.value.limit
    decreases |UNITS| - i
  {
    if i == |UNITS| then None else if val >= UNITS[i].limit then Some(UNITS[i]) else FirstUnit(val, i + 1)
  }

  function Readable(val: int, u: Unit): string
    requires u in UNITS && val >= u.limit
  {
    NatText(val / u.limit) + u.ext + "s"
  }

  /** ns_to_readable, with its loop over the units; it returns None when val is below 1. */
  method NsToReadable(val: int) returns (text: Option<string>)
    ensures text == TextOf(val) && (text.Some? <==> val >= 1)
    ensures text ==
      if val >= 1_000_000_000 then Some(NatText(val / 1_000_000_000) + "s")
      else if val >= 1_000_000 then Some(NatText(val / 1_000_000) + "ms")
      else if val >= 1_000 then Some(NatText(val / 1_000) + "us")
      else if val >= 1 then Some(NatText(val) + "ns")
      else None
  {
    TextOfIs(val);
    for i := 0 to |UNITS|
      invariant FirstUnit(val, 0) == FirstUnit(val, i)
    {
      if val >= UNITS[i].limit {
        return Some(NatText(val / UNITS[i].limit) + UNITS[i].ext + "s");
      }
    }
    text := None;
  }

  function TextOf(val: int): Option<string> {
    match FirstUnit(val, 0)
    case None => None
    case Some(u) => Some(Readable(val, u))
  }

  /** The text, unit by unit. */
  lemma TextOfIs(val: int)
    ensures TextOf(val) ==
      if val >= 1_000_000_000 then Some(NatText(val / 1_000_000_000) + "s")
      else if val >= 1_000_000 then Some(NatText(val / 1_000_000) + "ms")
      else if val >= 1_000 then Some(NatText(val / 1_000) + "us")
      else if val >= 1 then Some(NatText(val) + "ns")
      else None
  {
    FirstUnitIs(val);
    hide FirstUnit, NatText;
    if val >= 1 {
      var u := FirstUnit(val, 0).value;
      var digits := NatText(val / u.limit);
      assert digits + u.ext + "s" == digits + (u.ext + "s");
      assert "" + "s" == "s" && "m" + "s" == "ms" && "u" + "s" == "us" && "n" + "s" == "ns";
    }
  }

  lemma FirstUnitIs(val: int)
    ensures FirstUnit(val, 0) ==
      if val >= 1_000_000_000 then Some(Unit(1_000_000_000, ""))
      else if val >= 1_000_000 then Some(Unit(1_000_000, "m"))
      else if val >= 1_000 then Some(Unit(1_000, "u"))
      else if val >= 1 then Some(Unit(1, "n"))
      else None
  {
    assert FirstUnit(val, 3) == if val >= 1 then Some(UNITS[3]) else None;
    assert FirstUnit(val, 2) == if val >= 1_000 then Some(UNITS[2]) else FirstUnit(val, 3);
  }

  predicate EndsWith(s: string, end: string) { |s| >= |end| && s[|s| - |end|..] == end }

  /** The number before a suffix, in units of limit; None for float's ValueError. */
  function Number(digits: string, limit: nat): Option<nat> {
    if digits != "" && AllDigits(digits) then Some(NatOf(digits) * limit) else None
  }

  /** stime_to_ns, on texts whose number is written in digits. */
  function StimeToNs(data: string): Option<nat> {
    if EndsWith(data, "ns") then Number(data[..|data| - 2], 1)
    else if EndsWith(data, "us") then Number(data[..|data| - 2], 1_000)
    else if EndsWith(data, "ms") then Number(data[..|data| - 2], 1_000_000)
    else if EndsWith(data, "s") then Number(data[..|data| - 1], 1_000_000_000)
    else None
  }

  /** What a time is after it was written and read. */
  function Truncated(v: int): int
    requires v >= 1
  {
    var u := FirstUnit(v, 0).value;
    v / u.limit * u.limit
  }

  lemma SuffixReadBack(digits: string, u: Unit)
    requires u in UNITS && digits != "" && AllDigits(digits)
    ensures StimeToNs(digits + u.ext + "s") == Number(digits, u.limit)
  {
    hide Number;
    var text := digits + u.ext + "s";
    assert IsDigit(digits[|digits| - 1]);
    if u.ext == "" {
      assert text == digits + "s" && text[..|text| - 1] == digits && text[|text| - 1..] == "s";
      if |text| >= 2 {
        assert text[|text| - 2..][0] == digits[|digits| - 1];
      }
    } else {
      assert text[..|text| - 2] == digits && text[|text| - 2..] == u.ext + "s";
      assert (u.ext + "s")[0] == u.ext[0] && "ns"[0] != "us"[0] && "ns"[0] != "ms"[0] && "us"[0] != "ms"[0];
    }
  }

  lemma WrittenAndRead(v: int)
    requires v >= 1
    ensures TextOf(v).Some? && StimeToNs(TextOf(v).value) == Some(Truncated(v))
  {
    hide StimeToNs;
    var u := FirstUnit(v, 0).value;
    NatRoundTrip(v / u.limit);
    SuffixReadBack(NatText(v / u.limit), u);
  }

  lemma Division(v: int, d: int)
    requires v >= d > 0
    ensures v / d * d <= v < v / d * d + d && v / d * d >= d
    ensures v / d * d / d == v / d
  {
  }

  /** Writing a time and reading it back rounds it down to its unit, and keeps its text. */
  lemma ReadingTruncates(v: int)
    requires v >= 1
    ensures var u, r := FirstUnit(v, 0).value, Truncated(v);
      r <= v < r + u.limit && FirstUnit(r, 0) == Some(u) && TextOf(r) == TextOf(v)
  {
    var u := FirstUnit(v, 0).value;
    Division(v, u.limit);
  }

  /** Times keep their order. */
  lemma TruncationIsMonotone(v: int, w: int)
    requires 1 <= v <= w
    ensures Truncated(v) <= Truncated(w)
  {
    var u, x := FirstUnit(v, 0).value, FirstUnit(w, 0).value;
    SameUnitOrBelow(v, w);
    hide FirstUnit;
    Division(v, u.limit);
    Division(w, x.limit);
    MultiplesOrder(v / u.limit, w / u.limit, u.limit, v, w);
  }

  /** A time no larger than another has the same unit, or is less than one of the other's. */
  lemma SameUnitOrBelow(v: int, w: int)
    requires 1 <= v <= w
    ensures FirstUnit(v, 0) == FirstUnit(w, 0) || v < FirstUnit(w, 0).value.limit
  {
  }

  lemma MultiplesOrder(q: int, r: int, d: int, v: int, w: int)
    requires d > 0 && v <= w && q * d <= v && w < r * d + d
    ensures q * d <= r * d
  {
    assert q >= r + 1 ==> q * d >= (r + 1) * d;
  }
}
