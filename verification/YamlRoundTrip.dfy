/** Reading back what the printer wrote, at every tab size from 2, width and minimum width. */
module YamlRoundTrip {
  import opened Totals
  import opened Text
  import opened PrettyYaml
  import R = YamlReader

  type Value = R.Value

  // ---------------------------------------------------------------- what a tree means

  function Denote(t: Tree): Value {
    match t
    case Str(s) => R.VStr(s)
    case Num(n) => R.VNum(n)
    case Bool(b) => R.VBool(b)
    case Null => R.VNull
    case List(items) => R.VList(DenoteAll(items))
    case Dict(entries) => R.VDict(MapOf(entries))
  }

  function DenoteAll(items: seq<Tree>): (r: seq<Value>)
    ensures |r| == |items|
  {
    if items == [] then [] else [Denote(items[0])] + DenoteAll(items[1..])
  }

  function MapOf(es: seq<Entry>): map<string, Value> {
    if es == [] then map[] else MapOf(es[1..])[es[0].key := Denote(es[0].val)]
  }

  predicate HasKey(es: seq<Entry>, key: string) { exists i :: 0 <= i < |es| && es[i].key == key }

  /** The keys of a dict are different. */
  predicate DistinctKeys(es: seq<Entry>) { forall i, j :: 0 <= i < j < |es| ==> es[i].key != es[j].key }

  /** What the core schema does not read as a string: a number, a boolean or null, in any spelling. */
  predicate LooksLikeOther(s: string) { IsIntText(s) || s in ["true", "false", "null"] || R.IsOther(s) }

  /**
   A string that no rule of YAML reads as something else: printed bare it must not look like another scalar, and
   between quotes it must have no quote, no backslash and no character below a space but the tab.
   */
  predicate CleanString(s: string) {
    if IsBare(s) then !LooksLikeOther(s) else '"' !in s && '\\' !in s && R.AllQuotable(s)
  }

  predicate Clean(t: Tree) {
    match t
    case Str(s) => CleanString(s)
    case List(items) => forall i :: 0 <= i < |items| ==> Clean(items[i])
    case Dict(entries) => DistinctKeys(entries) && forall i :: 0 <= i < |entries| ==> CleanEntry(entries[i])
    case _ => true
  }

  predicate CleanEntry(e: Entry) { CleanString(e.key) && Clean(e.val) }

  predicate AllClean(items: seq<Tree>) { forall i :: 0 <= i < |items| ==> Clean(items[i]) }

  predicate AllCleanEntries(es: seq<Entry>) { forall i :: 0 <= i < |es| ==> CleanEntry(es[i]) }

  lemma {:induction false} MapOfKeys(es: seq<Entry>, key: string)
    ensures key in MapOf(es) <==> HasKey(es, key)
  {
    if es != [] {
      MapOfKeys(es[1..], key);
      assert es == [es[0]] + es[1..];
      HasKeySplit(es[0], es[1..], key);
    }
  }

  lemma HeadIsNew(es: seq<Entry>)
    requires es != [] && DistinctKeys(es)
    ensures es[0].key !in MapOf(es[1..]) && DistinctKeys(es[1..])
  {
    MapOfKeys(es[1..], es[0].key);
  }

  // ---------------------------------------------------------------- sorting does not change a dict

  lemma {:induction false} InsertedKeys(e: Entry, es: seq<Entry>, key: string)
    ensures HasKey(InsertBy(FirstByKey, e, es), key) <==> e.key == key || HasKey(es, key)
  {
    var r := InsertBy(FirstByKey, e, es);
    if HasKey(r, key) {
      var i :| 0 <= i < |r| && r[i].key == key;
      assert r[i] in multiset(r) && (r[i] == e || r[i] in es);
    }
    if HasKey(es, key) {
      var i :| 0 <= i < |es| && es[i].key == key;
      assert es[i] in multiset(es) && es[i] in multiset(r) && es[i] in r;
    }
    assert e in multiset(r) && e in r;
  }

  lemma DistinctSplit(e: Entry, es: seq<Entry>)
    ensures DistinctKeys([e] + es) <==> DistinctKeys(es) && !HasKey(es, e.key)
  {
    var all := [e] + es;
    if DistinctKeys(all) {
      forall i, j | 0 <= i < j < |es| ensures es[i].key != es[j].key {
        assert es[i] == all[i + 1] && es[j] == all[j + 1];
      }
      forall i | 0 <= i < |es| ensures es[i].key != e.key {
        assert es[i] == all[i + 1] && all[0] == e;
      }
    }
    if DistinctKeys(es) && !HasKey(es, e.key) {
      forall i, j | 0 <= i < j < |all| ensures all[i].key != all[j].key {
        assert all[j] == es[j - 1] && (i > 0 ==> all[i] == es[i - 1]);
      }
    }
  }

  lemma {:induction false} InsertKeepsMap(e: Entry, es: seq<Entry>)
    requires DistinctKeys(es) && !HasKey(es, e.key)
    ensures MapOf(InsertBy(FirstByKey, e, es)) == MapOf(es)[e.key := Denote(e.val)]
    ensures DistinctKeys(InsertBy(FirstByKey, e, es))
  {
    hide HasKey, DistinctKeys, MapOf;
    if es == [] || Before(e.key, es[0].key) {
      DistinctSplit(e, es);
      MapOfCons(e, es);
    } else {
      var tail := es[1..];
      assert es == [es[0]] + tail;
      DistinctSplit(es[0], tail);
      HasKeySplit(es[0], tail, e.key);
      InsertKeepsMap(e, tail);
      var r := InsertBy(FirstByKey, e, tail);
      InsertedKeys(e, tail, es[0].key);
      DistinctSplit(es[0], r);
      MapOfCons(es[0], r);
      MapOfCons(es[0], tail);
      Reorder(MapOf(tail), e.key, Denote(e.val), es[0].key, Denote(es[0].val));
    }
  }

  lemma MapOfCons(e: Entry, es: seq<Entry>)
    ensures MapOf([e] + es) == MapOf(es)[e.key := Denote(e.val)]
  {
    assert ([e] + es)[0] == e && ([e] + es)[1..] == es;
  }

  lemma Reorder(m: map<string, Value>, k: string, v: Value, l: string, w: Value)
    requires k != l
    ensures m[k := v][l := w] == m[l := w][k := v]
  {
  }

  lemma HasKeySplit(e: Entry, es: seq<Entry>, key: string)
    ensures HasKey([e] + es, key) <==> e.key == key || HasKey(es, key)
  {
    assert ([e] + es)[0] == e;
    assert forall i :: 0 <= i < |es| ==> es[i] == ([e] + es)[i + 1];
    if HasKey([e] + es, key) && e.key != key {
      var i :| 0 <= i < |[e] + es| && ([e] + es)[i].key == key;
      assert es[i - 1].key == key;
    }
  }

  /** sorted(data.items()) is the same dict. */
  lemma {:induction false} SortKeepsMap(es: seq<Entry>)
    requires DistinctKeys(es)
    ensures MapOf(SortEntries(es)) == MapOf(es) && DistinctKeys(SortEntries(es))
  {
    if es != [] {
      assert es == [es[0]] + es[1..];
      DistinctSplit(es[0], es[1..]);
      SortKeepsMap(es[1..]);
      MapOfKeys(es[1..], es[0].key);
      MapOfKeys(SortEntries(es[1..]), es[0].key);
      InsertKeepsMap(es[0], SortEntries(es[1..]));
    }
  }

  lemma SortKeepsClean(es: seq<Entry>)
    requires AllCleanEntries(es) && SimpleValues(es)
    ensures AllCleanEntries(SortEntries(es)) && SimpleValues(SortEntries(es)) && (SortEntries(es) == [] <==> es == [])
  {
    var r := SortEntries(es);
    forall i | 0 <= i < |r| ensures CleanEntry(r[i]) && IsSimple(r[i].val) {
      assert r[i] in multiset(r) && r[i] in multiset(es) && r[i] in es;
    }
    assert |r| == |multiset(r)| && |es| == |multiset(es)|;
  }

  // ---------------------------------------------------------------- scalars

  lemma {:induction false} SpanStops(s: string, rest: string, quoted: bool)
    requires forall i :: 0 <= i < |s| ==> if quoted then s[i] != '"' else R.IsPlain(s[i])
    requires rest == "" || (if quoted then rest[0] == '"' else !R.IsPlain(rest[0]))
    ensures R.Span(s + rest, quoted) == |s|
  {
    if s == "" {
      assert s + rest == rest;
    } else {
      assert (s + rest)[1..] == s[1..] + rest;
      SpanStops(s[1..], rest, quoted);
    }
  }

  /** What may follow a scalar: the end, a comma, a colon or a closing bracket. */
  predicate IsDelimited(rest: string) { rest == "" || rest[0] in [',', ':', ']', '}'] }

  lemma PlainReadBack(s: string, rest: string)
    requires s != "" && forall i :: 0 <= i < |s| ==> R.IsPlain(s[i])
    requires IsDelimited(rest)
    ensures R.ReadScalar(s + rest) == Some((R.Resolve(s), rest))
  {
    SpanStops(s, rest, false);
    assert (s + rest)[..|s|] == s && (s + rest)[|s|..] == rest;
  }

  lemma StringReadBack(s: string, rest: string)
    requires CleanString(s) && IsDelimited(rest)
    ensures R.ReadScalar(DumpsString(s) + rest) == Some((R.VStr(s), rest))
  {
    if IsBare(s) {
      hide R.IsOther;
      BareIsPlain(s);
      PlainReadBack(s, rest);
    } else {
      QuotedReadBack(s, rest);
    }
  }

  lemma BareIsPlain(s: string)
    requires IsBare(s)
    ensures s != "" && forall i :: 0 <= i < |s| ==> R.IsPlain(s[i])
  {
  }

  lemma QuotedReadBack(s: string, rest: string)
    requires '"' !in s && '\\' !in s && R.AllQuotable(s)
    ensures R.ReadScalar("\"" + s + "\"" + rest) == Some((R.VStr(s), rest))
  {
    var all, tail := "\"" + s + "\"" + rest, "\"" + rest;
    SpanStops(s, tail, true);
    hide R.AllQuotable, R.Span;
    QuotedParts(s, rest);
  }

  lemma QuotedParts(s: string, rest: string)
    ensures var all := "\"" + s + "\"" + rest;
      && all != "" && all[0] == '"' && all[1..] == s + ("\"" + rest)
      && all[1..][..|s|] == s && all[|s| + 2..] == rest
  {
  }

  lemma IntTextIsPlain(n: int)
    ensures forall i :: 0 <= i < |IntText(n)| ==> R.IsPlain(IntText(n)[i])
  {
  }

  lemma SimpleReadBack(t: Tree, rest: string)
    requires IsSimple(t) && Clean(t) && IsDelimited(rest)
    ensures R.ReadScalar(DumpsSimple(t) + rest) == Some((Denote(t), rest))
  {
    match t
    case Str(s) => StringReadBack(s, rest);
    case Num(n) =>
      IntTextIsPlain(n);
      IntRoundTrip(n);
      PlainReadBack(IntText(n), rest);
    case Bool(b) => PlainReadBack(DumpsSimple(t), rest);
    case Null => PlainReadBack("null", rest);
  }

  /** A string is read back exactly when it is clean. */
  lemma StringReadBackIff(s: string)
    ensures R.ReadInline(DumpsString(s)) == Some(R.VStr(s)) <==> CleanString(s)
  {
    hide *;
    if IsBare(s) {
      BareReadBackIff(s);
    } else {
      QuotedReadBackIff(s);
    }
  }

  lemma BareReadBackIff(s: string)
    requires IsBare(s)
    ensures R.ReadInline(DumpsString(s)) == Some(R.VStr(s)) <==> CleanString(s)
  {
    hide R.Span, R.IsOther, IsIntText;
    assert s + "" == s;
    PlainReadBack(s, "");
  }

  lemma QuotedReadBackIff(s: string)
    requires !IsBare(s)
    ensures R.ReadInline(DumpsString(s)) == Some(R.VStr(s)) <==> CleanString(s)
  {
    hide IsBare, R.Resolve;
    var text := DumpsString(s);
    assert text + "" == text;
    if CleanString(s) {
      StringReadBack(s, "");
    } else if R.ReadInline(text) == Some(R.VStr(s)) {
      var n := R.Span(text[1..], true);
      assert |text[1..][..n]| == |s|;
      SpanHasNoQuote(text[1..]);
    }
  }

  /** Text of more than one line is never read as a string. */
  lemma LinesAreNoString(lines: seq<string>, s: string)
    requires |lines| > 1
    ensures R.Decode(lines) != Some(R.VStr(s))
  {
    hide R.DecodeItems, R.DecodeEntries;
  }

  lemma {:induction false} SpanHasNoQuote(s: string)
    ensures '"' !in s[..R.Span(s, true)]
  {
    if s != "" && s[0] != '"' {
      SpanHasNoQuote(s[1..]);
      assert s[..R.Span(s, true)] == [s[0]] + s[1..][..R.Span(s[1..], true)];
    }
  }

  // ---------------------------------------------------------------- flow collections

  lemma SimpleStarts(t: Tree)
    requires IsSimple(t)
    ensures DumpsSimple(t) != "" && (DumpsSimple(t)[0] == '"' || R.IsPlain(DumpsSimple(t)[0]))
    ensures !R.IsItem(DumpsSimple(t))
  {
    if t.Num? {
      IntTextIsPlain(t.n);
    }
  }

  lemma Regroup(a: string, b: string, c: string, d: string, e: string)
    ensures a + b + c + d + e == a + (b + (c + (d + e)))
    ensures b + c + d + e == b + (c + (d + e))
  {
  }

  function AddItem(first: Option<Value>, rest: Option<seq<Value>>): Option<seq<Value>> {
    if first.None? || rest.None? then None else Some([first.value] + rest.value)
  }

  lemma ReadMoreItems(s: string, v: Value, sep: string, tail: string)
    requires (sep == "," || sep == ", ") && R.ReadScalar(s) == Some((v, sep + tail)) && (tail == "" || tail[0] != ' ')
    ensures R.ReadFlowItems(s) == AddItem(Some(v), R.ReadFlowItems(tail))
  {
    hide R.ReadScalar, R.Trim;
    TrimSpace(tail);
    var rest := sep + tail;
    assert rest[0] == ',';
    assert rest[1..] == (if sep == "," then tail else " " + tail);
  }

  lemma {:induction false} FlowItemsReadBack(items: seq<Tree>, sep: string)
    requires items != [] && AllSimple(items) && AllClean(items) && (sep == "," || sep == ", ")
    ensures R.ReadFlowItems(JoinSimple(items, sep) + "]") == Some(DenoteAll(items))
    ensures JoinSimple(items, sep) != "" && JoinSimple(items, sep)[0] != ' '
  {
    hide R.ReadScalar, DumpsSimple, Clean;
    SimpleStarts(items[0]);
    if |items| == 1 {
      SimpleReadBack(items[0], "]");
      assert items[1..] == [] && DenoteAll(items) == [Denote(items[0])];
    } else {
      hide R.ReadFlowItems;
      var tail := JoinSimple(items[1..], sep) + "]";
      FlowItemsReadBack(items[1..], sep);
      SimpleReadBack(items[0], sep + tail);
      Regroup("", DumpsSimple(items[0]), sep, JoinSimple(items[1..], sep), "]");
      ReadMoreItems(JoinSimple(items, sep) + "]", Denote(items[0]), sep, tail);
    }
  }

  lemma TrimSpace(s: string)
    requires s == "" || s[0] != ' '
    ensures R.Trim(s) == s && R.Trim(" " + s) == s
  {
    assert (" " + s)[1..] == s;
    assert R.Leading(s) == 0 && R.Leading(" " + s) == 1;
  }

  lemma KeyReadBack(key: string, rest: string)
    requires CleanString(key) && (rest == "" || rest[0] != ' ')
    ensures R.ReadKey(KeyText(key) + rest) == Some((key, rest))
  {
    hide R.ReadScalar, CleanString, DumpsString;
    var after := ": " + rest;
    assert KeyText(key) + rest == DumpsString(key) + after;
    StringReadBack(key, after);
    assert after[1..] == " " + rest;
    TrimSpace(rest);
  }

  lemma KeyStarts(key: string)
    ensures KeyText(key) != "" && (KeyText(key)[0] == '"' || R.IsPlain(KeyText(key)[0]))
    ensures KeyText(key)[0] != '-'
  {
  }

  function AddEntry(key: string, first: Option<Value>, rest: Option<map<string, Value>>): Option<map<string, Value>> {
    if first.None? || rest.None? || key in rest.value then None else Some(rest.value[key := first.value])
  }

  lemma ReadLastEntry(s: string, key: string, mid: string, v: Value)
    requires R.ReadKey(s) == Some((key, mid)) && R.ReadScalar(mid) == Some((v, "}"))
    ensures R.ReadFlowEntries(s) == Some(map[key := v])
  {
    hide R.ReadScalar, R.ReadKey;
  }

  lemma ReadMoreEntries(s: string, key: string, mid: string, v: Value, tail: string)
    requires R.ReadKey(s) == Some((key, mid)) && R.ReadScalar(mid) == Some((v, ", " + tail)) &&
      (tail == "" || tail[0] != ' ')
    ensures R.ReadFlowEntries(s) == AddEntry(key, Some(v), R.ReadFlowEntries(tail))
  {
    hide R.ReadScalar, R.ReadKey, R.Trim;
    TrimSpace(tail);
    var rest := ", " + tail;
    assert rest[0] == ',' && rest[1..] == " " + tail;
  }

  lemma {:induction false} FlowEntriesReadBack(es: seq<Entry>)
    requires es != [] && SimpleValues(es) && AllCleanEntries(es) && DistinctKeys(es)
    ensures R.ReadFlowEntries(JoinEntries(es) + "}") == Some(MapOf(es))
    ensures JoinEntries(es) != "" && JoinEntries(es)[0] != ' '
  {
    hide R.ReadScalar, R.ReadKey, R.ReadFlowEntries, DumpsSimple, DumpsString, Clean, CleanString, DistinctKeys,
      KeyText;
    var key, val := es[0].key, es[0].val;
    assert CleanEntry(es[0]);
    SimpleStarts(val);
    KeyStarts(key);
    ShowKeyText(key);
    var all := JoinEntries(es) + "}";
    if |es| > 1 {
      HeadIsNew(es);
      FlowEntriesReadBack(es[1..]);
      var tail := JoinEntries(es[1..]) + "}";
      var mid := DumpsSimple(val) + (", " + tail);
      SimpleReadBack(val, ", " + tail);
      KeyReadBack(key, mid);
      Regroup(KeyText(key), DumpsSimple(val), ", ", JoinEntries(es[1..]), "}");
      ReadMoreEntries(all, key, mid, Denote(val), tail);
    } else {
      assert MapOf(es) == map[key := Denote(val)];
      var mid := DumpsSimple(val) + "}";
      SimpleReadBack(val, "}");
      KeyReadBack(key, mid);
      assert all == KeyText(key) + mid;
      ReadLastEntry(all, key, mid, Denote(val));
    }
  }

  lemma ShowKeyText(key: string)
    ensures KeyText(key) == DumpsString(key) + ": "
  {
  }

  /** What is printed on one line: a scalar, an empty dict or a flow collection. */
  predicate OnOneLine(t: Tree, w: int) {
    match t
    case List(items) => ListFlows(items, w)
    case Dict(entries) => entries == [] || DictFlows(entries, w)
    case _ => true
  }

  function OneLine(t: Tree, w: int): string
    requires OnOneLine(t, w)
  {
    match t
    case List(items) => FlowList(items)
    case Dict(entries) => if entries == [] then "{}" else FlowDict(entries)
    case _ => DumpsSimple(t)
  }

  lemma FlowListReadBack(items: seq<Tree>)
    requires AllSimple(items) && AllClean(items)
    ensures R.ReadInline(FlowList(items)) == Some(R.VList(DenoteAll(items)))
    ensures FlowList(items) != "" && FlowList(items)[0] == '['
  {
    hide R.ReadScalar, R.ReadFlowItems, DumpsSimple, Clean, IsSimple;
    var sep := if AllNums(items) then ", " else ",";
    if items != [] {
      FlowItemsReadBack(items, sep);
      hide JoinSimple, DenoteAll;
      assert FlowList(items)[1..] == JoinSimple(items, sep) + "]";
      assert |FlowList(items)| > 2;
    }
  }

  lemma FlowDictReadBack(entries: seq<Entry>)
    requires entries != [] && SimpleValues(entries) && AllCleanEntries(entries) && DistinctKeys(entries)
    ensures R.ReadInline(FlowDict(entries)) == Some(R.VDict(MapOf(entries)))
    ensures FlowDict(entries) != "" && FlowDict(entries)[0] == '{'
  {
    hide R.ReadScalar, R.ReadFlowEntries, DistinctKeys, AllCleanEntries, JoinEntries, MapOf, SortEntries;
    SortKeepsMap(entries);
    SortKeepsClean(entries);
    var es := SortEntries(entries);
    FlowEntriesReadBack(es);
    assert FlowDict(entries)[1..] == JoinEntries(es) + "}";
    assert |FlowDict(entries)| > 2;
  }

  lemma ScalarReadBack(t: Tree)
    requires IsSimple(t) && Clean(t)
    ensures R.ReadInline(DumpsSimple(t)) == Some(Denote(t))
    ensures DumpsSimple(t) != "" && DumpsSimple(t)[0] != ' ' && !R.IsItem(DumpsSimple(t))
  {
    hide R.ReadScalar, DumpsSimple;
    SimpleStarts(t);
    SimpleReadBack(t, "");
    assert DumpsSimple(t) + "" == DumpsSimple(t);
  }

  lemma OneLineReadBack(t: Tree, w: int)
    requires Clean(t) && OnOneLine(t, w)
    ensures R.ReadInline(OneLine(t, w)) == Some(Denote(t))
    ensures OneLine(t, w) != "" && OneLine(t, w)[0] != ' ' && !R.IsItem(OneLine(t, w))
  {
    hide R.ReadInline, DumpsSimple, FlowList, FlowDict, DenoteAll, MapOf;
    match t
    case List(items) => FlowListReadBack(items);
    case Dict(entries) => if entries == [] { EmptyDictReadBack(); } else { FlowDictReadBack(entries); }
    case _ => ScalarReadBack(t);
  }

  lemma EmptyDictReadBack()
    ensures R.ReadInline("{}") == Some(R.VDict(MapOf([])))
  {
  }

  // ---------------------------------------------------------------- block collections: the reader's side

  lemma {:induction false} LeadingPad(n: nat, s: string)
    ensures R.Leading(Spaces(n) + s) == n + R.Leading(s)
  {
    if n == 0 {
      assert Spaces(0) + s == s;
    } else {
      assert (Spaces(n) + s)[1..] == Spaces(n - 1) + s;
      LeadingPad(n - 1, s);
    }
  }

  lemma {:induction false} GroupSizeOfIndent(tab: nat, inner: seq<string>, rest: seq<string>)
    requires tab > 0 && (rest == [] || R.Leading(rest[0]) == 0)
    ensures R.GroupSize(Indent(Spaces(tab), inner) + rest) == |inner|
  {
    var lines := Indent(Spaces(tab), inner) + rest;
    if inner == [] {
      assert lines == rest;
    } else {
      LeadingPad(tab, inner[0]);
      assert lines[1..] == Indent(Spaces(tab), inner[1..]) + rest;
      GroupSizeOfIndent(tab, inner[1..], rest);
    }
  }

  lemma GroupOfIndent(head: string, tab: nat, inner: seq<string>, rest: seq<string>)
    requires tab > 0 && (rest == [] || R.Leading(rest[0]) == 0)
    ensures R.Group([head] + Indent(Spaces(tab), inner) + rest) == Indent(Spaces(tab), inner)
    ensures ([head] + Indent(Spaces(tab), inner) + rest)[1 + |inner|..] == rest
  {
    var lines := [head] + Indent(Spaces(tab), inner) + rest;
    assert lines[1..] == Indent(Spaces(tab), inner) + rest;
    GroupSizeOfIndent(tab, inner, rest);
    assert lines[1..][..|inner|] == Indent(Spaces(tab), inner);
  }

  lemma DedentIndent(tab: nat, inner: seq<string>)
    ensures R.Indented(Indent(Spaces(tab), inner), tab)
    ensures R.Dedent(Indent(Spaces(tab), inner), tab) == inner
  {
    var lines := Indent(Spaces(tab), inner);
    forall i | 0 <= i < |lines| ensures tab <= R.Leading(lines[i]) && lines[i][tab..] == inner[i] {
      LeadingPad(tab, inner[i]);
    }
  }

  /** Lines whose first one starts at the margin. */
  predicate AtMargin(lines: seq<string>) { lines == [] || (lines[0] != "" && lines[0][0] != ' ') }

  lemma ReadItem(lines: seq<string>, tab: nat, rest: seq<string>)
    requires tab >= 2 && lines != [] && AtMargin(lines) && AtMargin(rest)
    ensures R.IsItem((ItemLines(lines, tab) + rest)[0])
    ensures R.DecodeItems(ItemLines(lines, tab) + rest) ==
      AddItem(R.Decode(lines), R.DecodeItems(rest))
  {
    hide R.Decode, R.Group, R.Indented;
    var all := ItemLines(lines, tab) + rest;
    var head := "-" + Spaces(tab - 1) + lines[0];
    assert all == [head] + Indent(Spaces(tab), lines[1..]) + rest;
    GroupOfIndent(head, tab, lines[1..], rest);
    DedentIndent(tab, lines[1..]);
    assert head[1..] == Spaces(tab - 1) + lines[0];
    LeadingPad(tab - 1, lines[0]);
    assert head[tab..] == lines[0];
    assert [lines[0]] + lines[1..] == lines;
  }

  lemma ReadInlineEntry(key: string, line: string, rest: seq<string>)
    requires CleanString(key) && line != "" && line[0] != ' ' && AtMargin(rest)
    ensures R.DecodeEntries([KeyText(key) + line] + rest) == AddEntry(key, R.ReadInline(line), R.DecodeEntries(rest))
  {
    hide R.ReadInline, R.ReadKey, R.Group, R.Decode, CleanString, KeyText;
    var lines := [KeyText(key) + line] + rest;
    KeyReadBack(key, line);
    GroupOfIndent(KeyText(key) + line, 1, [], rest);
    assert lines == [KeyText(key) + line] + Indent(Spaces(1), []) + rest;
  }

  lemma ReadGroupEntry(key: string, inner: seq<string>, tab: nat, rest: seq<string>)
    requires CleanString(key) && tab > 0 && AtMargin(inner) && AtMargin(rest)
    ensures R.DecodeEntries([KeyText(key)] + Indent(Spaces(tab), inner) + rest) ==
            AddEntry(key, R.Decode(inner), R.DecodeEntries(rest))
  {
    hide R.ReadKey, R.Group, R.Indented, CleanString, KeyText;
    KeyReadBack(key, "");
    assert KeyText(key) + "" == KeyText(key);
    GroupOfIndent(KeyText(key), tab, inner, rest);
    DedentIndent(tab, inner);
    if inner != [] {
      LeadingPad(tab, inner[0]);
    }
  }

  lemma KeyLineIsNotInline(key: string, line: string)
    requires CleanString(key) && (line == "" || line[0] != ' ')
    ensures R.ReadInline(KeyText(key) + line).None? && !R.IsItem(KeyText(key) + line)
  {
    hide R.ReadScalar, R.ReadFlowItems, R.ReadFlowEntries, DumpsString;
    KeyStarts(key);
    ShowKeyText(key);
    StringReadBack(key, ": " + line);
    assert KeyText(key) + line == DumpsString(key) + (": " + line);
    assert (KeyText(key) + line)[0] == KeyText(key)[0];
  }

  // ---------------------------------------------------------------- block collections: the printer's side

  /** An empty list that does not even have room for its brackets, and leaves no line. */
  predicate IsLost(t: Tree, width: int, minWidth: int) { t == List([]) && Clamp(width, minWidth) < 2 }

  /** What a reader of the printed lines finds: None where the printer fails. */
  function Shown(t: Tree, tab: int, width: int, minWidth: int): Option<Value>
    decreases t, 1
  {
    var w := Clamp(width, minWidth);
    if OnOneLine(t, w) then Some(Denote(t))
    else if t == List([]) then Some(R.VNull)
    else if t.List? then
      var items := ShownItems(t.items, tab, w - tab, minWidth);
      if items.None? then None else Some(R.VList(items.value))
    else
      var entries := ShownEntries(t.entries, tab, w, minWidth);
      if entries.None? then None else Some(R.VDict(entries.value))
  }

  function ShownItems(items: seq<Tree>, tab: int, width: int, minWidth: int): Option<seq<Value>>
    decreases items, 0
  {
    if items == [] then Some([])
    else if IsLost(items[0], width, minWidth) then None
    else AddItem(Shown(items[0], tab, width, minWidth), ShownItems(items[1..], tab, width, minWidth))
  }

  function ShownEntries(es: seq<Entry>, tab: int, w: int, minWidth: int): Option<map<string, Value>>
    decreases es, 0
  {
    if es == [] then Some(map[])
    else AddEntry(es[0].key, Shown(es[0].val, tab, w - tab, minWidth), ShownEntries(es[1..], tab, w, minWidth))
  }

  lemma DumpOneLine(t: Tree, tab: int, width: int, minWidth: int)
    requires OnOneLine(t, Clamp(width, minWidth))
    ensures Dump(t, tab, width, minWidth) == Some([OneLine(t, Clamp(width, minWidth))])
  {
  }

  /** What is printed on one line is not empty and starts at the margin. */
  lemma OneLineStarts(t: Tree, w: int)
    requires OnOneLine(t, w)
    ensures OneLine(t, w) != "" && OneLine(t, w)[0] != ' '
  {
    if IsSimple(t) {
      SimpleStarts(t);
    }
  }

  /** Only an empty list is ever printed as no lines, and nothing is printed with a space at its start. */
  lemma {:induction false} DumpStarts(t: Tree, tab: int, width: int, minWidth: int)
    ensures var lines := Dump(t, tab, width, minWidth);
      lines.Some? ==> AtMargin(lines.value) && (lines.value == [] <==> IsLost(t, width, minWidth))
  {
    var w := Clamp(width, minWidth);
    if OnOneLine(t, w) {
      DumpOneLine(t, tab, width, minWidth);
      OneLineStarts(t, w);
    } else if t.List? {
      ItemsStart(t.items, tab, w - tab, minWidth);
    } else {
      EntriesStart(t.entries, tab, w, minWidth);
    }
  }

  lemma ItemsStart(items: seq<Tree>, tab: int, width: int, minWidth: int)
    ensures var lines := DumpItems(items, tab, width, minWidth);
      lines.Some? ==>
        (lines.value == [] <==> items == []) && (items != [] ==> lines.value[0] != "" && lines.value[0][0] == '-')
  {
    hide Dump;
  }

  lemma EntriesStart(es: seq<Entry>, tab: int, w: int, minWidth: int)
    ensures var lines := DumpEntries(es, tab, w, minWidth);
      lines.Some? ==> AtMargin(lines.value) && (lines.value == [] <==> es == [])
  {
    hide Dump, OnKeyLine, KeyText;
    if es != [] {
      KeyStarts(es[0].key);
    }
  }

  /** What the lines of a tree are read as. */
  lemma {:induction false} ReadBack(t: Tree, tab: int, width: int, minWidth: int)
    requires tab >= 2 && Clean(t)
    ensures Dump(t, tab, width, minWidth).None? <==> Shown(t, tab, width, minWidth).None?
    ensures Dump(t, tab, width, minWidth).Some? ==>
      R.Decode(Dump(t, tab, width, minWidth).value) == Shown(t, tab, width, minWidth)
    decreases t, 1
  {
    hide R.ReadInline, DumpItems, DumpEntries, ShownItems, ShownEntries;
    hide R.DecodeItems, R.DecodeEntries, OneLine, Denote, ListFlows, DictFlows;
    var w := Clamp(width, minWidth);
    if OnOneLine(t, w) {
      DumpOneLine(t, tab, width, minWidth);
      OneLineReadBack(t, w);
    } else if t == List([]) {
      EmptyItems(tab, w - tab, minWidth);
    } else if t.List? {
      ReadBackItems(t.items, tab, w - tab, minWidth);
      ItemsStart(t.items, tab, w - tab, minWidth);
    } else {
      ReadBackEntries(t.entries, tab, w, minWidth);
      EntriesStart(t.entries, tab, w, minWidth);
    }
  }

  lemma {:induction false} ReadBackItems(items: seq<Tree>, tab: int, width: int, minWidth: int)
    requires tab >= 2 && AllClean(items)
    ensures DumpItems(items, tab, width, minWidth).None? <==> ShownItems(items, tab, width, minWidth).None?
    ensures var lines := DumpItems(items, tab, width, minWidth);
      lines.Some? ==> R.DecodeItems(lines.value) == ShownItems(items, tab, width, minWidth)
    ensures var lines := DumpItems(items, tab, width, minWidth);
      lines.Some? && items != [] ==> R.IsItem(lines.value[0])
    decreases items, 0
  {
    hide Dump, Shown, Clean, R.Decode, ItemLines;
    if items != [] {
      var first := Dump(items[0], tab, width, minWidth);
      var rest := DumpItems(items[1..], tab, width, minWidth);
      ReadBack(items[0], tab, width, minWidth);
      DumpStarts(items[0], tab, width, minWidth);
      ReadBackItems(items[1..], tab, width, minWidth);
      ItemsStart(items[1..], tab, width, minWidth);
      if first.Some? && rest.Some? && first.value != [] {
        ReadItem(first.value, tab, rest.value);
      }
    }
  }

  lemma EmptyItems(tab: int, width: int, minWidth: int)
    ensures DumpItems([], tab, width, minWidth) == Some([])
  {
  }

  /** What fits on the line of its key was printed on one line. */
  lemma OnKeyLineIsOneLine(keyText: string, val: Tree, tab: int, width: int, minWidth: int, lines: seq<string>, w: int)
    requires Dump(val, tab, width, minWidth) == Some(lines) && OnKeyLine(keyText, val, lines, w)
    ensures OnOneLine(val, Clamp(width, minWidth))
  {
    if val.List? {
      ItemsStart(val.items, tab, Clamp(width, minWidth) - tab, minWidth);
    }
  }

  lemma EntryReadBack(e: Entry, lines: seq<string>, rest: seq<string>, tab: int, w: int, minWidth: int)
    requires tab >= 2 && CleanEntry(e) && AtMargin(rest) && AtMargin(lines)
    requires Dump(e.val, tab, w - tab, minWidth) == Some(lines)
    requires R.Decode(lines) == Shown(e.val, tab, w - tab, minWidth)
    ensures var all := EntryLines(KeyText(e.key), e.val, lines, tab, w) + rest;
      R.DecodeEntries(all) == AddEntry(e.key, Shown(e.val, tab, w - tab, minWidth), R.DecodeEntries(rest)) &&
      R.ReadInline(all[0]).None? && !R.IsItem(all[0])
  {
    hide R.ReadInline, R.Decode, R.DecodeEntries, KeyText, CleanString, OnKeyLine, DumpItems, DumpEntries, OnOneLine,
      AddEntry;
    hide ShownItems, ShownEntries;
    var keyText := KeyText(e.key);
    if OnKeyLine(keyText, e.val, lines, w) {
      OnKeyLineIsOneLine(keyText, e.val, tab, w - tab, minWidth, lines, w);
      DumpOneLine(e.val, tab, w - tab, minWidth);
      OneLineReadBack(e.val, Clamp(w - tab, minWidth));
      assert |lines| == 1;
      ReadInlineEntry(e.key, lines[0], rest);
      KeyLineIsNotInline(e.key, lines[0]);
    } else {
      ReadGroupEntry(e.key, lines, tab, rest);
      KeyLineIsNotInline(e.key, "");
      assert keyText + "" == keyText;
    }
  }

  lemma {:induction false} ReadBackEntries(es: seq<Entry>, tab: int, w: int, minWidth: int)
    requires tab >= 2 && AllCleanEntries(es) && DistinctKeys(es)
    ensures DumpEntries(es, tab, w, minWidth).None? <==> ShownEntries(es, tab, w, minWidth).None?
    ensures var lines := DumpEntries(es, tab, w, minWidth);
      lines.Some? ==> R.DecodeEntries(lines.value) == ShownEntries(es, tab, w, minWidth)
    ensures var lines := DumpEntries(es, tab, w, minWidth);
      lines.Some? && es != [] ==> R.ReadInline(lines.value[0]).None? && !R.IsItem(lines.value[0])
    decreases es, 0
  {
    hide *;
    if es == [] {
      NoEntries(tab, w, minWidth);
    } else {
      var val := es[0].val;
      FirstIsClean(es);
      FirstEntry(es, tab, w, minWidth);
      HeadIsNew(es);
      ReadBack(val, tab, w - tab, minWidth);
      DumpStarts(val, tab, w - tab, minWidth);
      ReadBackEntries(es[1..], tab, w, minWidth);
      EntriesStart(es[1..], tab, w, minWidth);
      var first := Dump(val, tab, w - tab, minWidth);
      var rest := DumpEntries(es[1..], tab, w, minWidth);
      if first.Some? && rest.Some? {
        ShownHeadIsNew(es, tab, w, minWidth);
        EntryReadBack(es[0], first.value, rest.value, tab, w, minWidth);
      }
    }
  }

  lemma NoEntries(tab: int, w: int, minWidth: int)
    ensures DumpEntries([], tab, w, minWidth) == Some([]) && ShownEntries([], tab, w, minWidth) == Some(map[])
    ensures R.DecodeEntries([]) == Some(map[])
  {
  }

  lemma FirstIsClean(es: seq<Entry>)
    requires es != [] && AllCleanEntries(es)
    ensures CleanEntry(es[0]) && Clean(es[0].val) && AllCleanEntries(es[1..])
  {
    hide Clean, CleanString;
  }

  /** The first entry, on both sides. */
  lemma FirstEntry(es: seq<Entry>, tab: int, w: int, minWidth: int)
    requires es != []
    ensures var first, rest := Dump(es[0].val, tab, w - tab, minWidth), DumpEntries(es[1..], tab, w, minWidth);
      DumpEntries(es, tab, w, minWidth) ==
        if first.None? || rest.None? then None
        else Some(EntryLines(KeyText(es[0].key), es[0].val, first.value, tab, w) + rest.value)
    ensures var first, rest := Shown(es[0].val, tab, w - tab, minWidth), ShownEntries(es[1..], tab, w, minWidth);
      && ShownEntries(es, tab, w, minWidth) == AddEntry(es[0].key, first, rest)
      && (first.None? || rest.None? ==> AddEntry(es[0].key, first, rest).None?)
      && (first.Some? && rest.Some? && es[0].key !in rest.value ==> AddEntry(es[0].key, first, rest).Some?)
  {
    hide Dump, Shown, EntryLines, KeyText;
  }

  lemma ShownHeadIsNew(es: seq<Entry>, tab: int, w: int, minWidth: int)
    requires es != [] && DistinctKeys(es)
    ensures var m := ShownEntries(es[1..], tab, w, minWidth); m.Some? ==> es[0].key !in m.value
  {
    hide ShownEntries, MapOf, DistinctKeys;
    HeadIsNew(es);
    ShownKeys(es[1..], tab, w, minWidth);
    assert es[0].key !in MapOf(es[1..]).Keys;
  }

  lemma {:induction false} ShownKeys(es: seq<Entry>, tab: int, w: int, minWidth: int)
    ensures var m := ShownEntries(es, tab, w, minWidth); m.Some? ==> m.value.Keys == MapOf(es).Keys
  {
    hide Shown;
    if es != [] {
      ShownKeys(es[1..], tab, w, minWidth);
    }
  }

  // ---------------------------------------------------------------- round trips

  /** No empty list sits where fewer than two columns are left. */
  predicate Printable(t: Tree, tab: int, width: int, minWidth: int)
    decreases t
  {
    var w := Clamp(width, minWidth);
    match t
    case List(items) =>
      (items == [] ==> w >= 2) && forall i :: 0 <= i < |items| ==> Printable(items[i], tab, w - tab, minWidth)
    case Dict(entries) => forall i :: 0 <= i < |entries| ==> PrintableEntry(entries[i], tab, w, minWidth)
    case _ => true
  }

  predicate PrintableEntry(e: Entry, tab: int, w: int, minWidth: int)
    decreases e
  {
    Printable(e.val, tab, w - tab, minWidth)
  }

  lemma {:induction false} RoomIsEnough(t: Tree, tab: int, width: int, minWidth: int)
    requires minWidth >= 2
    ensures Printable(t, tab, width, minWidth)
  {
    var w := Clamp(width, minWidth);
    match t
    case List(items) =>
      forall i | 0 <= i < |items| ensures Printable(items[i], tab, w - tab, minWidth) {
        RoomIsEnough(items[i], tab, w - tab, minWidth);
      }
    case Dict(entries) =>
      forall i | 0 <= i < |entries| ensures PrintableEntry(entries[i], tab, w, minWidth) {
        RoomIsEnough(entries[i].val, tab, w - tab, minWidth);
      }
    case _ =>
  }

  /** A tree printed on one line holds no list that could be lost. */
  lemma OneLineIsPrintable(t: Tree, tab: int, width: int, minWidth: int)
    requires OnOneLine(t, Clamp(width, minWidth))
    ensures Printable(t, tab, width, minWidth)
  {
    var w := Clamp(width, minWidth);
    match t
    case List(items) =>
      forall i | 0 <= i < |items| ensures Printable(items[i], tab, w - tab, minWidth) {
        assert IsSimple(items[i]);
      }
    case Dict(entries) =>
      forall i | 0 <= i < |entries| ensures PrintableEntry(entries[i], tab, w, minWidth) {
        assert IsSimple(entries[i].val);
      }
    case _ =>
  }

  lemma {:induction false} ShownIff(t: Tree, tab: int, width: int, minWidth: int)
    requires Clean(t)
    ensures Shown(t, tab, width, minWidth) == Some(Denote(t)) <==> Printable(t, tab, width, minWidth)
    decreases t, 1
  {
    hide ListFlows, DictFlows, ShownItems, ShownEntries, DenoteAll, MapOf, DistinctKeys, CleanEntry;
    var w := Clamp(width, minWidth);
    if OnOneLine(t, w) {
      OneLineIsPrintable(t, tab, width, minWidth);
    } else if t == List([]) {
      EmptyListFlowsIff(w);
    } else if t.List? {
      ShownItemsIff(t.items, tab, w - tab, minWidth);
    } else {
      ShownEntriesIff(t.entries, tab, w, minWidth);
    }
  }

  lemma EmptyListFlowsIff(w: int)
    ensures ListFlows([], w) <==> w >= 2
  {
  }

  predicate AllPrintable(items: seq<Tree>, tab: int, width: int, minWidth: int) {
    forall i :: 0 <= i < |items| ==> Printable(items[i], tab, width, minWidth)
  }

  lemma {:induction false} ShownItemsIff(items: seq<Tree>, tab: int, width: int, minWidth: int)
    requires AllClean(items)
    ensures ShownItems(items, tab, width, minWidth) == Some(DenoteAll(items)) <==>
      AllPrintable(items, tab, width, minWidth)
    decreases items, 0
  {
    hide Shown, Denote, Clean, Printable;
    if items != [] {
      var tail := items[1..];
      assert items == [items[0]] + tail;
      ShownIff(items[0], tab, width, minWidth);
      ShownItemsIff(tail, tab, width, minWidth);
      LostIsNotPrintable(items[0], tab, width, minWidth);
      AllPrintableSplit(items[0], tail, tab, width, minWidth);
      var rest := ShownItems(tail, tab, width, minWidth);
      if rest.Some? && ShownItems(items, tab, width, minWidth) == Some(DenoteAll(items)) {
        assert DenoteAll(items)[1..] == DenoteAll(tail) && DenoteAll(items)[0] == Denote(items[0]);
        assert ShownItems(items, tab, width, minWidth).value[1..] == rest.value;
      }
    }
  }

  lemma LostIsNotPrintable(t: Tree, tab: int, width: int, minWidth: int)
    ensures IsLost(t, width, minWidth) ==> !Printable(t, tab, width, minWidth)
  {
  }

  lemma AllPrintableSplit(t: Tree, items: seq<Tree>, tab: int, width: int, minWidth: int)
    ensures AllPrintable([t] + items, tab, width, minWidth) <==>
            Printable(t, tab, width, minWidth) && AllPrintable(items, tab, width, minWidth)
  {
    hide Printable;
    var all := [t] + items;
    assert all[0] == t && forall i :: 0 <= i < |items| ==> items[i] == all[i + 1];
    if Printable(t, tab, width, minWidth) && AllPrintable(items, tab, width, minWidth) {
      forall i | 0 <= i < |all| ensures Printable(all[i], tab, width, minWidth) {
        assert i > 0 ==> all[i] == items[i - 1];
      }
    }
  }

  predicate AllPrintableEntries(es: seq<Entry>, tab: int, w: int, minWidth: int) {
    forall i :: 0 <= i < |es| ==> PrintableEntry(es[i], tab, w, minWidth)
  }

  lemma AllPrintableEntriesSplit(e: Entry, es: seq<Entry>, tab: int, w: int, minWidth: int)
    ensures AllPrintableEntries([e] + es, tab, w, minWidth) <==>
            PrintableEntry(e, tab, w, minWidth) && AllPrintableEntries(es, tab, w, minWidth)
  {
    hide PrintableEntry;
    var all := [e] + es;
    assert all[0] == e && forall i :: 0 <= i < |es| ==> es[i] == all[i + 1];
    if PrintableEntry(e, tab, w, minWidth) && AllPrintableEntries(es, tab, w, minWidth) {
      forall i | 0 <= i < |all| ensures PrintableEntry(all[i], tab, w, minWidth) {
        assert i > 0 ==> all[i] == es[i - 1];
      }
    }
  }

  lemma {:induction false} ShownEntriesIff(es: seq<Entry>, tab: int, w: int, minWidth: int)
    requires AllCleanEntries(es) && DistinctKeys(es)
    ensures ShownEntries(es, tab, w, minWidth) == Some(MapOf(es)) <==> AllPrintableEntries(es, tab, w, minWidth)
    decreases es, 0
  {
    hide Shown, Denote, Clean, Printable, DistinctKeys, CleanString;
    if es != [] {
      var key, tail := es[0].key, es[1..];
      assert es == [es[0]] + tail && CleanEntry(es[0]);
      HeadIsNew(es);
      ShownKeys(tail, tab, w, minWidth);
      ShownIff(es[0].val, tab, w - tab, minWidth);
      ShownEntriesIff(tail, tab, w, minWidth);
      AllPrintableEntriesSplit(es[0], tail, tab, w, minWidth);
      var rest := ShownEntries(tail, tab, w, minWidth);
      if rest.Some? && ShownEntries(es, tab, w, minWidth) == Some(MapOf(es)) {
        assert MapOf(es)[key] == Denote(es[0].val);
        assert MapOf(es) - {key} == MapOf(tail);
        assert ShownEntries(es, tab, w, minWidth).value - {key} == rest.value;
      }
    }
  }

  /**
   * Printing and reading back gives the same tree exactly when no empty list sits where fewer than two columns are
   * left; otherwise the printer fails or the list turns into null.
   */
  lemma RoundTripIff(t: Tree, tab: int, width: int, minWidth: int)
    requires tab >= 2 && Clean(t)
    ensures (var lines := Dump(t, tab, width, minWidth); lines.Some? && R.Decode(lines.value) == Some(Denote(t))) <==>
            Printable(t, tab, width, minWidth)
  {
    hide Dump, Shown, R.Decode, Printable, Clean;
    ReadBack(t, tab, width, minWidth);
    ShownIff(t, tab, width, minWidth);
  }

  /** With at least two columns everywhere, the layout never changes the meaning. */
  lemma LayoutDoesNotMatter(t: Tree, tab1: int, width1: int, minWidth1: int, tab2: int, width2: int, minWidth2: int)
    requires tab1 >= 2 && tab2 >= 2 && minWidth1 >= 2 && minWidth2 >= 2 && Clean(t)
    ensures Dump(t, tab1, width1, minWidth1).Some? && Dump(t, tab2, width2, minWidth2).Some?
    ensures R.Decode(Dump(t, tab1, width1, minWidth1).value) == R.Decode(Dump(t, tab2, width2, minWidth2).value)
            == Some(Denote(t))
  {
    hide Dump, R.Decode, Printable, Clean;
    RoomIsEnough(t, tab1, width1, minWidth1);
    RoomIsEnough(t, tab2, width2, minWidth2);
    RoundTripIff(t, tab1, width1, minWidth1);
    RoundTripIff(t, tab2, width2, minWidth2);
  }

  /** With fewer than two columns an empty list under a key becomes null, and one in a list raises an error. */
  lemma EmptyListIsLost(key: string, tab: int, width: int, minWidth: int)
    requires CleanString(key) && tab >= 2 && width < 2 && minWidth < 2
    ensures Dump(List([List([])]), tab, width, minWidth) == None
    ensures var lines := Dump(Dict([Entry(key, List([]))]), tab, width, minWidth);
      lines.Some? && R.Decode(lines.value) == Some(R.VDict(map[key := R.VNull]))
  {
    hide Dump, R.Decode, CleanString;
    var w := Clamp(width, minWidth);
    var e := Entry(key, List([]));
    EmptyListFlowsIff(Clamp(w - tab, minWidth));
    assert Clean(e.val) && CleanEntry(e);
    assert !IsSimple([List([])][0]) && !IsSimple([e][0].val) && [e][1..] == [];
    assert Shown(e.val, tab, w - tab, minWidth) == Some(R.VNull);
    assert ShownEntries([e], tab, w, minWidth) == Some(map[key := R.VNull]);
    ReadBack(Dict([e]), tab, width, minWidth);
    ReadBack(List([List([])]), tab, width, minWidth);
  }
}
