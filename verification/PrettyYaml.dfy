/** pretty_yaml.py: a printer that lays out collections in flow or block style, depending on the width. */
module PrettyYaml {
  import opened Totals
  import opened Text

  /** What is printed. A dict keeps its insertion order; its keys are strings, all different. */
  datatype Tree =
    | Str(s: string)
    | Num(n: int)
    | Bool(b: bool)
    | Null
    | List(items: seq<Tree>)
    | Dict(entries: seq<Entry>)

  datatype Entry = Entry(key: string, val: Tree)

  // ---------------------------------------------------------------- the printer

  /** val.replace('_', '').replace('.', '').isalnum() */
  predicate IsBare(s: string) {
    (forall i :: 0 <= i < |s| ==> IsAlnum(s[i]) || s[i] == '_' || s[i] == '.') &&
    (exists i :: 0 <= i < |s| && IsAlnum(s[i]))
  }

  predicate IsSimple(t: Tree) { !t.List? && !t.Dict? }

  function DumpsString(s: string): (r: string) { if IsBare(s) then s else "\"" + s + "\"" }

  function DumpsSimple(t: Tree): (r: string)
    requires IsSimple(t)
  {
    match t
    case Str(s) => DumpsString(s)
    case Bool(b) => if b then "true" else "false"
    case Null => "null"
    case Num(n) => IntText(n)
  }

  predicate AllSimple(ts: seq<Tree>) { forall i :: 0 <= i < |ts| ==> IsSimple(ts[i]) }

  /** Python's bool is an int. */
  predicate AllNums(ts: seq<Tree>) { forall i :: 0 <= i < |ts| ==> ts[i].Num? || ts[i].Bool? }

  function JoinSimple(ts: seq<Tree>, sep: string): string
    requires AllSimple(ts)
  {
    if ts == [] then ""
    else if |ts| == 1 then DumpsSimple(ts[0])
    else DumpsSimple(ts[0]) + sep + JoinSimple(ts[1..], sep)
  }

  function FlowList(ts: seq<Tree>): string
    requires AllSimple(ts)
  {
    "[" + JoinSimple(ts, if AllNums(ts) then ", " else ",") + "]"
  }

  predicate SimpleValues(es: seq<Entry>) { forall i :: 0 <= i < |es| ==> IsSimple(es[i].val) }

  function JoinEntries(es: seq<Entry>): string
    requires SimpleValues(es)
  {
    if es == [] then ""
    else
      var first := DumpsString(es[0].key) + ": " + DumpsSimple(es[0].val);
      if |es| == 1 then first else first + ", " + JoinEntries(es[1..])
  }

  /** Python's order of strings. */
  predicate Before(a: string, b: string) {
    b != "" && (a == "" || a[0] < b[0] || (a[0] == b[0] && Before(a[1..], b[1..])))
  }

  lemma {:induction false} BeforeIsAsymmetric(a: string, b: string)
    ensures !(Before(a, b) && Before(b, a))
  {
    if a != "" && b != "" {
      BeforeIsAsymmetric(a[1..], b[1..]);
    }
  }

  predicate Ascending(es: seq<Entry>) { forall i :: 0 < i < |es| ==> !Before(es[i].key, es[i - 1].key) }

  predicate FirstByKey(a: Entry, b: Entry) { Before(a.key, b.key) }

  /** sorted(data.items()): by key, as keys are different. */
  function SortEntries(es: seq<Entry>): (r: seq<Entry>)
    ensures multiset(r) == multiset(es)
  {
    SortBy(FirstByKey, es)
  }

  lemma {:induction false} InsertAscending(e: Entry, es: seq<Entry>)
    requires Ascending(es)
    ensures Ascending(InsertBy(FirstByKey, e, es))
    ensures InsertBy(FirstByKey, e, es)[0] == e || (es != [] && InsertBy(FirstByKey, e, es)[0] == es[0])
  {
    if es != [] {
      if Before(e.key, es[0].key) {
        BeforeIsAsymmetric(e.key, es[0].key);
      } else {
        InsertAscending(e, es[1..]);
      }
    }
  }

  lemma {:induction false} SortAscending(es: seq<Entry>)
    ensures Ascending(SortEntries(es))
  {
    if es != [] {
      SortAscending(es[1..]);
      InsertAscending(es[0], SortEntries(es[1..]));
    }
  }

  lemma SortKeepsSimple(es: seq<Entry>)
    requires SimpleValues(es)
    ensures SimpleValues(SortEntries(es))
  {
    var r := SortEntries(es);
    forall i | 0 <= i < |r| ensures IsSimple(r[i].val) {
      assert r[i] in multiset(r) && r[i] in multiset(es);
    }
  }

  function FlowDict(es: seq<Entry>): string
    requires SimpleValues(es)
  {
    SortKeepsSimple(es);
    "{" + JoinEntries(SortEntries(es)) + "}"
  }

  /** ' ' * n */
  function Spaces(n: int): (s: string)
    ensures |s| == if n < 0 then 0 else n
    ensures forall i :: 0 <= i < |s| ==> s[i] == ' '
  {
    if n <= 0 then "" else seq(n, _ => ' ')
  }

  function Clamp(width: int, minWidth: int): (w: int) { if width < minWidth then minWidth else width }

  function Indent(pad: string, lines: seq<string>): (r: seq<string>)
    ensures |r| == |lines|
    ensures forall i :: 0 <= i < |r| ==> r[i] == pad + lines[i]
  {
    seq(|lines|, i requires 0 <= i < |lines| => pad + lines[i])
  }

  /** line.strip().startswith('-'); no line ends in anything but its own text, so only the start matters. */
  predicate StartsWithDash(line: string) {
    line != "" && (line[0] == '-' || (line[0] == ' ' && StartsWithDash(line[1..])))
  }

  function KeyText(key: string): string { DumpsString(key) + ": " }

  /** The line an item or entry contributes on the line of its key. */
  predicate OnKeyLine(keyText: string, val: Tree, lines: seq<string>, width: int) {
    |lines| == 1 && |keyText + lines[0]| < width && !val.Dict? && !StartsWithDash(lines[0])
  }

  function EntryLines(keyText: string, val: Tree, lines: seq<string>, tab: int, width: int): seq<string> {
    if OnKeyLine(keyText, val, lines, width) then [keyText + lines[0]]
    else [keyText] + Indent(Spaces(tab), lines)
  }

  /** The lines of an item; items[0] fails on an empty answer. */
  function ItemLines(lines: seq<string>, tab: int): seq<string>
    requires lines != []
  {
    ["-" + Spaces(tab - 1) + lines[0]] + Indent(Spaces(tab), lines[1..])
  }

  /** Whether a list, or a dict that is not empty, is printed in flow style. */
  predicate ListFlows(items: seq<Tree>, w: int) { AllSimple(items) && |FlowList(items)| <= w }

  predicate DictFlows(entries: seq<Entry>, w: int) { SimpleValues(entries) && |FlowDict(entries)| <= w }

  /** dumpv: its lines, or None for the IndexError of items[0]. */
  function Dump(t: Tree, tab: int, width: int, minWidth: int): Option<seq<string>>
    decreases t, 1
  {
    var w := Clamp(width, minWidth);
    match t
    case List(items) =>
      if ListFlows(items, w) then Some([FlowList(items)]) else DumpItems(items, tab, w - tab, minWidth)
    case Dict(entries) =>
      if entries == [] then Some(["{}"])
      else if DictFlows(entries, w) then Some([FlowDict(entries)])
      else DumpEntries(entries, tab, w, minWidth)
    case _ => Some([DumpsSimple(t)])
  }

  function DumpItems(items: seq<Tree>, tab: int, width: int, minWidth: int): Option<seq<string>>
    decreases items, 0
  {
    if items == [] then Some([]) else
    var first := Dump(items[0], tab, width, minWidth);
    var rest := DumpItems(items[1..], tab, width, minWidth);
    if first.None? || rest.None? || first.value == [] then None
    else Some(ItemLines(first.value, tab) + rest.value)
  }

  function DumpEntries(entries: seq<Entry>, tab: int, w: int, minWidth: int): Option<seq<string>>
    decreases entries, 0
  {
    if entries == [] then Some([]) else
    var first := Dump(entries[0].val, tab, w - tab, minWidth);
    var rest := DumpEntries(entries[1..], tab, w, minWidth);
    if first.None? || rest.None? then None
    else Some(EntryLines(KeyText(entries[0].key), entries[0].val, first.value, tab, w) + rest.value)
  }

  /** The first i items are printed as lines; the rest completes the result. */
  ghost predicate ItemsFrom(items: seq<Tree>, i: nat, lines: seq<string>, tab: int, width: int, minWidth: int) {
    i <= |items| &&
    DumpItems(items, tab, width, minWidth) == Prepend(lines, DumpItems(items[i..], tab, width, minWidth))
  }

  ghost predicate EntriesFrom(es: seq<Entry>, i: nat, lines: seq<string>, tab: int, w: int, minWidth: int) {
    i <= |es| && DumpEntries(es, tab, w, minWidth) == Prepend(lines, DumpEntries(es[i..], tab, w, minWidth))
  }

  function Prepend(lines: seq<string>, rest: Option<seq<string>>): Option<seq<string>> {
    if rest.None? then None else Some(lines + rest.value)
  }

  lemma LoopStarts(items: seq<Tree>, es: seq<Entry>, tab: int, width: int, minWidth: int)
    ensures ItemsFrom(items, 0, [], tab, width, minWidth)
    ensures EntriesFrom(es, 0, [], tab, width, minWidth)
  {
    assert items[0..] == items && es[0..] == es;
    assert forall x: seq<string> :: [] + x == x;
  }

  lemma LoopEnds(items: seq<Tree>, es: seq<Entry>, lines: seq<string>, tab: int, width: int, minWidth: int)
    ensures ItemsFrom(items, |items|, lines, tab, width, minWidth) ==>
      DumpItems(items, tab, width, minWidth) == Some(lines)
    ensures EntriesFrom(es, |es|, lines, tab, width, minWidth) ==> DumpEntries(es, tab, width, minWidth) == Some(lines)
  {
    assert lines + [] == lines;
  }

  lemma ItemStep(items: seq<Tree>, i: nat, lines: seq<string>, tab: int, width: int, minWidth: int)
    requires i < |items| && ItemsFrom(items, i, lines, tab, width, minWidth)
    ensures var first := Dump(items[i], tab, width, minWidth);
      if first.None? || first.value == [] then DumpItems(items, tab, width, minWidth).None?
      else ItemsFrom(items, i + 1, lines + ItemLines(first.value, tab), tab, width, minWidth)
  {
    assert items[i..][1..] == items[i + 1..];
    var first := Dump(items[i], tab, width, minWidth);
    var rest := DumpItems(items[i + 1..], tab, width, minWidth);
    if first.Some? && first.value != [] && rest.Some? {
      assert lines + (ItemLines(first.value, tab) + rest.value) == lines + ItemLines(first.value, tab) + rest.value;
    }
  }

  lemma EntryStep(es: seq<Entry>, i: nat, lines: seq<string>, tab: int, w: int, minWidth: int)
    requires i < |es| && EntriesFrom(es, i, lines, tab, w, minWidth)
    ensures var first := Dump(es[i].val, tab, w - tab, minWidth);
      if first.None? then DumpEntries(es, tab, w, minWidth).None?
      else
        var here := EntryLines(KeyText(es[i].key), es[i].val, first.value, tab, w);
        EntriesFrom(es, i + 1, lines + here, tab, w, minWidth)
  {
    hide Dump, EntryLines, KeyText;
    assert es[i..][1..] == es[i + 1..];
    var first := Dump(es[i].val, tab, w - tab, minWidth);
    var rest := DumpEntries(es[i + 1..], tab, w, minWidth);
    if first.Some? && rest.Some? {
      var here := EntryLines(KeyText(es[i].key), es[i].val, first.value, tab, w);
      assert lines + (here + rest.value) == lines + here + rest.value;
    }
  }

  /** dumpv as it is written, with its two loops. */
  method Dumpv(data: Tree, tab: int := 4, width0: int := 160, minWidth: int := 40) returns (res: Option<seq<string>>)
    ensures res == Dump(data, tab, width0, minWidth)
    decreases data
  {
    hide OnKeyLine, EntryLines, DumpItems, DumpEntries, ItemsFrom, EntriesFrom, FlowList, FlowDict;
    var width := if width0 < minWidth then minWidth else width0;
    if IsSimple(data) {
      return Some([DumpsSimple(data)]);
    }
    if data.List? {
      var oneLine: Option<string> := None;
      if AllSimple(data.items) {
        oneLine := Some(FlowList(data.items));
      }
      if oneLine.None? || |oneLine.value| > width {
        res := DumpvItems(data.items, tab, width - tab, minWidth);
      } else {
        res := Some([oneLine.value]);
      }
    } else if |data.entries| == 0 {
      res := Some(["{}"]);
    } else if DictFlows(data.entries, width) {
      res := Some([FlowDict(data.entries)]);
    } else {
      res := DumpvEntries(data.entries, tab, width, minWidth);
    }
  }

  method DumpvItems(items: seq<Tree>, tab: int, width: int, minWidth: int) returns (res: Option<seq<string>>)
    ensures res == DumpItems(items, tab, width, minWidth)
    decreases items
  {
    hide Dump, DumpItems, ItemsFrom;
    var lines := [];
    LoopStarts(items, [], tab, width, minWidth);
    for i := 0 to |items|
      invariant ItemsFrom(items, i, lines, tab, width, minWidth)
    {
      var val := Dumpv(items[i], tab, width, minWidth);
      ItemStep(items, i, lines, tab, width, minWidth);
      if val.None? || val.value == [] {
        return None;
      }
      lines := lines + (["-" + Spaces(tab - 1) + val.value[0]] + Indent(Spaces(tab), val.value[1..]));
    }
    LoopEnds(items, [], lines, tab, width, minWidth);
    res := Some(lines);
  }

  method DumpvEntries(es: seq<Entry>, tab: int, width: int, minWidth: int) returns (res: Option<seq<string>>)
    ensures res == DumpEntries(es, tab, width, minWidth)
    decreases es
  {
    hide Dump, DumpEntries, EntriesFrom;
    var lines := [];
    LoopStarts([], es, tab, width, minWidth);
    for i := 0 to |es|
      invariant EntriesFrom(es, i, lines, tab, width, minWidth)
    {
      var e := es[i];
      var keyText := DumpsString(e.key) + ": ";
      var val := Dumpv(e.val, tab, width - tab, minWidth);
      EntryStep(es, i, lines, tab, width, minWidth);
      if val.None? {
        return None;
      }
      if |val.value| == 1 && |keyText + val.value[0]| < width && !e.val.Dict? && !StartsWithDash(val.value[0]) {
        lines := lines + [keyText + val.value[0]];
      } else {
        lines := lines + ([keyText] + Indent(Spaces(tab), val.value));
      }
    }
    LoopEnds([], es, lines, tab, width, minWidth);
    res := Some(lines);
  }
}
