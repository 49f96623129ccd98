/**
 How pretty_yaml.py lays a tree out, from the lengths of its texts alone: what is printed on one line, what on the line
 of its key, and how far the rest is indented.
 */
module YamlShape {
  import opened Totals
  import opened Text
  import opened PrettyYaml
  import opened YamlRoundTrip
  import R = YamlReader

  // ---------------------------------------------------------------- strings

  /** s.replace(c, '') */
  function Without(s: string, c: char): string {
    if s == "" then "" else (if s[0] == c then "" else [s[0]]) + Without(s[1..], c)
  }

  /** s.isalnum(), for letters and digits of ASCII. */
  predicate IsAlnumText(s: string) { s != "" && forall i :: 0 <= i < |s| ==> IsAlnum(s[i]) }

  lemma {:induction false} WithoutKeeps(s: string, c: char, x: char)
    ensures x in Without(s, c) <==> x in s && x != c
  {
    if s != "" {
      WithoutKeeps(s[1..], c, x);
      assert s == [s[0]] + s[1..];
    }
  }

  /** A string is printed bare exactly when it is alphanumeric without its underscores and dots. */
  lemma BareIff(s: string)
    ensures DumpsString(s) ==
      if IsAlnumText(Without(Without(s, '_'), '.')) then s else ['"'] + s + ['"']
  {
    var r := Without(Without(s, '_'), '.');
    forall x: char ensures x in r <==> x in s && x != '_' && x != '.' {
      WithoutKeeps(s, '_', x);
      WithoutKeeps(Without(s, '_'), '.', x);
    }
    hide Without;
    if IsBare(s) {
      var i :| 0 <= i < |s| && IsAlnum(s[i]);
      assert s[i] in r;
      forall k | 0 <= k < |r| ensures IsAlnum(r[k]) {
        assert r[k] in r && r[k] in s;
      }
    } else if IsAlnumText(r) {
      assert r[0] in r && r[0] in s;
      forall k | 0 <= k < |s| ensures IsAlnum(s[k]) || s[k] == '_' || s[k] == '.' {
        assert s[k] in s;
        if s[k] in r {
          var j :| 0 <= j < |r| && r[j] == s[k];
        }
      }
    }
  }

  // ---------------------------------------------------------------- how long a flow collection is

  /** The columns of a scalar. */
  function Columns(t: Tree): nat { if IsSimple(t) then |DumpsSimple(t)| else 0 }

  /** The columns of an entry: its key, a colon, a space, its value. */
  function EntryColumns(e: Entry): nat { |DumpsString(e.key)| + 2 + Columns(e.val) }

  predicate OnlyScalars(ts: seq<Tree>) { forall t <- ts :: !t.List? && !t.Dict? }

  predicate OnlyNumbers(ts: seq<Tree>) { forall t <- ts :: t.Num? || t.Bool? }

  predicate ScalarValues(es: seq<Entry>) { forall e <- es :: !e.val.List? && !e.val.Dict? }

  /** Two brackets, the items, and between two numbers a comma and a space, between others only a comma. */
  function ListColumns(ts: seq<Tree>): int {
    2 + SumOf(Columns, ts) + (if ts == [] then 0 else (|ts| - 1) * (if OnlyNumbers(ts) then 2 else 1))
  }

  /** Two braces, the entries, and a comma and a space between any two. */
  function DictColumns(es: seq<Entry>): int {
    2 + SumOf(EntryColumns, es) + (if es == [] then 0 else (|es| - 1) * 2)
  }

  lemma {:induction false} JoinSimpleColumns(ts: seq<Tree>, sep: string)
    requires AllSimple(ts)
    ensures |JoinSimple(ts, sep)| == SumOf(Columns, ts) + (if ts == [] then 0 else (|ts| - 1) * |sep|)
  {
    hide DumpsSimple;
    if |ts| == 1 {
      assert SumOf(Columns, ts[1..]) == 0;
    } else if ts != [] {
      JoinSimpleColumns(ts[1..], sep);
      OneSepMore(|ts| - 1, |sep|);
    }
  }

  lemma OneSepMore(n: nat, sep: nat)
    requires n >= 1
    ensures n * sep == sep + (n - 1) * sep
  {
  }

  lemma {:induction false} JoinEntriesColumns(es: seq<Entry>)
    requires SimpleValues(es)
    ensures |JoinEntries(es)| == SumOf(EntryColumns, es) + (if es == [] then 0 else (|es| - 1) * 2)
  {
    hide DumpsString, DumpsSimple;
    if |es| == 1 {
      assert SumOf(EntryColumns, es[1..]) == 0;
    } else if es != [] {
      JoinEntriesColumns(es[1..]);
    }
  }

  lemma FlowListColumns(ts: seq<Tree>)
    requires AllSimple(ts)
    ensures |FlowList(ts)| == ListColumns(ts)
  {
    assert AllNums(ts) <==> OnlyNumbers(ts);
    JoinSimpleColumns(ts, if AllNums(ts) then ", " else ",");
  }

  lemma FlowDictColumns(es: seq<Entry>)
    requires SimpleValues(es)
    ensures |FlowDict(es)| == DictColumns(es)
  {
    SortKeepsSimple(es);
    JoinEntriesColumns(SortEntries(es));
    SortSum(FirstByKey, EntryColumns, es);
    SortSize(es);
    hide SumOf, SortEntries, JoinEntries;
  }

  lemma SortSize(es: seq<Entry>)
    ensures |SortEntries(es)| == |es| && (SortEntries(es) == [] <==> es == [])
  {
    assert |multiset(SortEntries(es))| == |SortEntries(es)| && |multiset(es)| == |es|;
  }

  // ---------------------------------------------------------------- flow or block

  function Larger(a: int, b: int): int { if a < b then b else a }

  /** Printed on one line that starts with c. */
  predicate IsOneLine(lines: Option<seq<string>>, c: char) {
    lines.Some? && |lines.value| == 1 && lines.value[0] != "" && lines.value[0][0] == c
  }

  /**
   A list is printed on one line in brackets exactly when it has only scalars and their texts fit into the width, or
   into the minimum width if that is larger; the line is as long as they are, and is read back as the list.
   */
  lemma ListIsFlowIff(items: seq<Tree>, tab: int, width: int, minWidth: int)
    ensures var lines := Dump(List(items), tab, width, minWidth);
      && (IsOneLine(lines, '[') <==> OnlyScalars(items) && ListColumns(items) <= Larger(width, minWidth))
      && (IsOneLine(lines, '[') ==> |lines.value[0]| == ListColumns(items))
      && (IsOneLine(lines, '[') && Clean(List(items)) ==> R.Decode(lines.value) == Some(Denote(List(items))))
  {
    hide R.ReadInline, R.DecodeItems, R.DecodeEntries, DumpItems;
    assert AllSimple(items) <==> OnlyScalars(items);
    if AllSimple(items) {
      FlowListColumns(items);
    }
    ItemsStart(items, tab, Clamp(width, minWidth) - tab, minWidth);
    if ListFlows(items, Clamp(width, minWidth)) && Clean(List(items)) {
      OneLineReadBack(List(items), Clamp(width, minWidth));
    }
  }

  /** The same for dicts and braces. */
  lemma DictIsFlowIff(entries: seq<Entry>, tab: int, width: int, minWidth: int)
    requires entries != []
    ensures var lines := Dump(Dict(entries), tab, width, minWidth);
      && (IsOneLine(lines, '{') <==> ScalarValues(entries) && DictColumns(entries) <= Larger(width, minWidth))
      && (IsOneLine(lines, '{') ==> |lines.value[0]| == DictColumns(entries))
      && (IsOneLine(lines, '{') && Clean(Dict(entries)) ==> R.Decode(lines.value) == Some(Denote(Dict(entries))))
  {
    hide R.ReadInline, R.DecodeItems, R.DecodeEntries;
    assert SimpleValues(entries) <==> ScalarValues(entries);
    if SimpleValues(entries) {
      FlowDictColumns(entries);
    }
    BlockStarts(entries, tab, Clamp(width, minWidth), minWidth);
    hide DumpEntries;
    if DictFlows(entries, Clamp(width, minWidth)) && Clean(Dict(entries)) {
      OneLineReadBack(Dict(entries), Clamp(width, minWidth));
    }
  }

  /** No line of a dict in block style starts with a brace. */
  lemma BlockStarts(es: seq<Entry>, tab: int, w: int, minWidth: int)
    requires es != []
    ensures !IsOneLine(DumpEntries(es, tab, w, minWidth), '{')
  {
    hide Dump, OnKeyLine;
    KeyStarts(es[0].key);
  }

  // ---------------------------------------------------------------- block style

  /** What is not printed on one line is printed item by item, within the width less the indentation. */
  lemma BlockList(items: seq<Tree>, tab: int, width: int, minWidth: int)
    requires !(OnlyScalars(items) && ListColumns(items) <= Larger(width, minWidth))
    ensures Dump(List(items), tab, width, minWidth) ==
            DumpItems(items, tab, Larger(width, minWidth) - tab, minWidth)
  {
    hide DumpItems;
    assert AllSimple(items) <==> OnlyScalars(items);
    if AllSimple(items) {
      FlowListColumns(items);
    }
  }

  lemma BlockDict(entries: seq<Entry>, tab: int, width: int, minWidth: int)
    requires entries != [] && !(ScalarValues(entries) && DictColumns(entries) <= Larger(width, minWidth))
    ensures Dump(Dict(entries), tab, width, minWidth) ==
            DumpEntries(entries, tab, Larger(width, minWidth), minWidth)
  {
    hide DumpEntries;
    assert SimpleValues(entries) <==> ScalarValues(entries);
    if SimpleValues(entries) {
      FlowDictColumns(entries);
    }
  }

  /** The items and the entries are printed one after the other, in order. */
  lemma {:induction false} ItemsAppend(a: seq<Tree>, b: seq<Tree>, tab: int, width: int, minWidth: int)
    ensures var first, second := DumpItems(a, tab, width, minWidth), DumpItems(b, tab, width, minWidth);
      DumpItems(a + b, tab, width, minWidth) ==
      if first.None? || second.None? then None else Some(first.value + second.value)
  {
    hide Dump, ItemLines;
    if a == [] {
      assert a + b == b;
      assert forall x: seq<string> :: [] + x == x;
    } else {
      assert (a + b)[0] == a[0] && (a + b)[1..] == a[1..] + b;
      ItemsAppend(a[1..], b, tab, width, minWidth);
      assert forall x: seq<string>, y: seq<string>, z: seq<string> :: x + y + z == x + (y + z);
    }
  }

  lemma {:induction false} EntriesAppend(a: seq<Entry>, b: seq<Entry>, tab: int, w: int, minWidth: int)
    ensures var first, second := DumpEntries(a, tab, w, minWidth), DumpEntries(b, tab, w, minWidth);
      DumpEntries(a + b, tab, w, minWidth) ==
      if first.None? || second.None? then None else Some(first.value + second.value)
  {
    hide Dump, EntryLines, KeyText;
    if a == [] {
      assert a + b == b;
      assert forall x: seq<string> :: [] + x == x;
    } else {
      assert (a + b)[0] == a[0] && (a + b)[1..] == a[1..] + b;
      EntriesAppend(a[1..], b, tab, w, minWidth);
      assert forall x: seq<string>, y: seq<string>, z: seq<string> :: x + y + z == x + (y + z);
    }
  }

  /** line is inner behind n blanks. */
  predicate IndentedBy(line: string, n: int, inner: string) {
    var columns := Larger(n, 0);
    |line| == columns + |inner| && (forall i :: 0 <= i < columns ==> line[i] == ' ') && line[columns..] == inner
  }

  lemma SpacesIndent(n: int, inner: string)
    ensures IndentedBy(Spaces(n) + inner, n, inner)
  {
  }

  /** An item: a dash on its first line, and every line behind as many columns as the tab has. */
  lemma OneItem(item: Tree, tab: int, width: int, minWidth: int)
    ensures var lines, inner := DumpItems([item], tab, width, minWidth), Dump(item, tab, width, minWidth);
      && (lines.None? <==> inner.None? || inner.value == [])
      && (lines.Some? ==>
        && |lines.value| == |inner.value|
        && lines.value[0] != "" && lines.value[0][0] == '-' && IndentedBy(lines.value[0][1..], tab - 1, inner.value[0])
        && forall i :: 0 < i < |inner.value| ==> IndentedBy(lines.value[i], tab, inner.value[i]))
  {
    hide Dump, IndentedBy;
    var inner := Dump(item, tab, width, minWidth);
    assert DumpItems([], tab, width, minWidth) == Some([]) && [item][1..] == [];
    if inner.Some? && inner.value != [] {
      var all := ItemLines(inner.value, tab);
      assert all + [] == all;
      SpacesIndent(tab - 1, inner.value[0]);
      assert all[0][1..] == Spaces(tab - 1) + inner.value[0];
      forall i | 0 < i < |inner.value| ensures IndentedBy(all[i], tab, inner.value[i]) {
        SpacesIndent(tab, inner.value[i]);
      }
    }
  }

  /** The first character that is not a blank is a dash. */
  predicate DashFirst(s: string) { exists i :: 0 <= i < |s| && s[i] == '-' && forall k :: 0 <= k < i ==> s[k] == ' ' }

  lemma {:induction false} DashFirstIff(s: string)
    ensures StartsWithDash(s) <==> DashFirst(s)
  {
    if s != "" && s[0] == ' ' {
      DashFirstIff(s[1..]);
      if DashFirst(s[1..]) {
        var i :| 0 <= i < |s[1..]| && s[1..][i] == '-' && forall k :: 0 <= k < i ==> s[1..][k] == ' ';
        assert s[i + 1] == '-' && forall k :: 0 < k < i + 1 ==> s[k] == s[1..][k - 1];
      }
      if DashFirst(s) {
        var i :| 0 <= i < |s| && s[i] == '-' && forall k :: 0 <= k < i ==> s[k] == ' ';
        assert s[1..][i - 1] == '-' && forall k :: 0 <= k < i - 1 ==> s[1..][k] == s[k + 1];
      }
    } else if s != "" && s[0] == '-' {
      assert DashFirst(s);
    }
  }

  /**
   An entry: its value stands on the line of its key exactly when it takes one line, is no dict, does not start with a
   dash, and the line stays shorter than the width; otherwise it stands below, behind as many columns as the tab has.
   */
  lemma OneEntry(e: Entry, tab: int, w: int, minWidth: int)
    ensures var lines, inner := DumpEntries([e], tab, w, minWidth), Dump(e.val, tab, w - tab, minWidth);
      && (lines.None? <==> inner.None?)
      && (lines.Some? ==>
        if |inner.value| == 1 && |DumpsString(e.key)| + 2 + |inner.value[0]| < w && !e.val.Dict? &&
           !DashFirst(inner.value[0])
        then lines.value == [DumpsString(e.key) + ": " + inner.value[0]]
        else
          && |lines.value| == 1 + |inner.value| && lines.value[0] == DumpsString(e.key) + ": "
          && forall i :: 0 <= i < |inner.value| ==> IndentedBy(lines.value[i + 1], tab, inner.value[i]))
  {
    hide Dump, IndentedBy, DumpsString, StartsWithDash, DashFirst;
    var inner := Dump(e.val, tab, w - tab, minWidth);
    assert DumpEntries([], tab, w, minWidth) == Some([]) && [e][1..] == [];
    if inner.Some? {
      var all := EntryLines(KeyText(e.key), e.val, inner.value, tab, w);
      assert all + [] == all;
      if |inner.value| == 1 {
        DashFirstIff(inner.value[0]);
      }
      forall i | 0 <= i < |inner.value| ensures IndentedBy(Spaces(tab) + inner.value[i], tab, inner.value[i]) {
        SpacesIndent(tab, inner.value[i]);
      }
    }
  }
}
