/** The shape of what pretty_yaml.py prints: how wide its flow collections are, and its text as a whole. */
module YamlLayout {
  import opened Totals
  import opened Text
  import opened PrettyYaml
  import opened YamlRoundTrip
  import R = YamlReader

  // ---------------------------------------------------------------- width

  /** The indentation of a line: its leading spaces and dashes. */
  function Margin(line: string): (m: nat)
    ensures m <= |line|
  {
    if line != "" && (line[0] == ' ' || line[0] == '-') then 1 + Margin(line[1..]) else 0
  }

  predicate EndsFlow(line: string) { line != "" && (line[|line| - 1] == ']' || line[|line| - 1] == '}') }

  predicate IsMultiple(m: nat, tab: nat)
    requires tab > 0
  {
    m == 0 || (m >= tab && IsMultiple(m - tab, tab))
  }

  /**
   * A flow collection, with its indentation of whole tabs and its key, keeps within the width, or within the minimum
   * width after its indentation (an empty dict takes two columns even when there is only one).
   */
  predicate Fits(line: string, tab: nat, width: int, minWidth: int)
    requires tab > 0
  {
    EndsFlow(line) ==>
      IsMultiple(Margin(line), tab) &&
      (|line| <= Clamp(width, minWidth) || |line| <= Margin(line) + (if minWidth < 2 then 2 else minWidth))
  }

  ghost predicate AllFit(lines: seq<string>, tab: nat, width: int, minWidth: int)
    requires tab > 0
  {
    forall i :: 0 <= i < |lines| ==> Fits(lines[i], tab, width, minWidth)
  }

  lemma {:induction false} MarginOfPad(pad: string, line: string)
    requires forall i :: 0 <= i < |pad| ==> pad[i] == ' ' || pad[i] == '-'
    ensures Margin(pad + line) == |pad| + Margin(line)
  {
    if pad == "" {
      assert pad + line == line;
    } else {
      assert (pad + line)[1..] == pad[1..] + line;
      MarginOfPad(pad[1..], line);
    }
  }

  lemma FitsUnderPad(pad: string, line: string, tab: nat, w: int, minWidth: int)
    requires tab > 0 && |pad| == tab && w >= minWidth && Fits(line, tab, w - tab, minWidth)
    requires forall i :: 0 <= i < |pad| ==> pad[i] == ' ' || pad[i] == '-'
    ensures Fits(pad + line, tab, w, minWidth)
  {
    MarginOfPad(pad, line);
    if line == "" {
      assert pad + line == pad;
    }
  }

  lemma FitsIndent(lines: seq<string>, tab: nat, w: int, minWidth: int)
    requires tab > 0 && w >= minWidth && AllFit(lines, tab, w - tab, minWidth)
    ensures AllFit(Indent(Spaces(tab), lines), tab, w, minWidth)
  {
    hide Fits;
    forall i | 0 <= i < |lines| ensures Fits(Indent(Spaces(tab), lines)[i], tab, w, minWidth) {
      FitsUnderPad(Spaces(tab), lines[i], tab, w, minWidth);
    }
  }

  lemma SimpleIsNoFlow(t: Tree)
    requires IsSimple(t)
    ensures !EndsFlow(DumpsSimple(t))
  {
    if t.Num? {
      IntTextIsPlain(t.n);
    }
  }

  lemma FlowFits(t: Tree, tab: nat, width: int, minWidth: int)
    requires tab > 0 && OnOneLine(t, Clamp(width, minWidth))
    ensures Fits(OneLine(t, Clamp(width, minWidth)), tab, width, minWidth)
  {
    if IsSimple(t) {
      SimpleIsNoFlow(t);
    }
  }

  /** Every flow collection printed anywhere in a tree keeps within its width. */
  lemma {:induction false} FlowsKeepWithinWidth(t: Tree, tab: nat, width: int, minWidth: int)
    requires tab > 0
    ensures var lines := Dump(t, tab, width, minWidth); lines.Some? ==> AllFit(lines.value, tab, width, minWidth)
    decreases t, 1
  {
    hide Fits, DumpItems, DumpEntries;
    var w := Clamp(width, minWidth);
    if OnOneLine(t, w) {
      DumpOneLine(t, tab, width, minWidth);
      FlowFits(t, tab, width, minWidth);
    } else if t.List? {
      ItemsFit(t.items, tab, w, minWidth);
      SameFit(tab, width, minWidth);
    } else {
      EntriesFit(t.entries, tab, w, minWidth);
      SameFit(tab, width, minWidth);
    }
  }

  lemma SameFit(tab: nat, width: int, minWidth: int)
    requires tab > 0
    ensures forall line :: Fits(line, tab, Clamp(width, minWidth), minWidth) == Fits(line, tab, width, minWidth)
  {
  }

  lemma {:induction false} ItemsFit(items: seq<Tree>, tab: nat, w: int, minWidth: int)
    requires tab > 0 && w >= minWidth
    ensures var lines := DumpItems(items, tab, w - tab, minWidth); lines.Some? ==> AllFit(lines.value, tab, w, minWidth)
    decreases items, 0
  {
    hide Fits, Dump;
    if items != [] {
      var first := Dump(items[0], tab, w - tab, minWidth);
      FlowsKeepWithinWidth(items[0], tab, w - tab, minWidth);
      ItemsFit(items[1..], tab, w, minWidth);
      if first.Some? && first.value != [] {
        FitsUnderPad("-" + Spaces(tab - 1), first.value[0], tab, w, minWidth);
        FitsIndent(first.value[1..], tab, w, minWidth);
      }
    }
  }

  lemma {:induction false} EntriesFit(es: seq<Entry>, tab: nat, w: int, minWidth: int)
    requires tab > 0 && w >= minWidth
    ensures var lines := DumpEntries(es, tab, w, minWidth); lines.Some? ==> AllFit(lines.value, tab, w, minWidth)
    decreases es, 0
  {
    hide Fits, Dump, EntryLines;
    if es != [] {
      var first := Dump(es[0].val, tab, w - tab, minWidth);
      FlowsKeepWithinWidth(es[0].val, tab, w - tab, minWidth);
      EntriesFit(es[1..], tab, w, minWidth);
      if first.Some? {
        EntryFits(KeyText(es[0].key), es[0].key, es[0].val, first.value, tab, w, minWidth);
      }
    }
  }

  lemma EntryFits(keyText: string, key: string, val: Tree, lines: seq<string>, tab: nat, w: int, minWidth: int)
    requires tab > 0 && w >= minWidth && AllFit(lines, tab, w - tab, minWidth) && keyText == KeyText(key)
    ensures AllFit(EntryLines(keyText, val, lines, tab, w), tab, w, minWidth)
  {
    hide AllFit;
    KeyStarts(key);
    assert keyText[|keyText| - 1] == ' ';
    if OnKeyLine(keyText, val, lines, w) {
      assert (keyText + lines[0])[0] == keyText[0];
      assert Fits(keyText + lines[0], tab, w, minWidth);
    } else {
      FitsIndent(lines, tab, w, minWidth);
      assert Fits(keyText, tab, w, minWidth);
    }
    hide Fits;
    ShowAllFit();
  }

  lemma ShowAllFit()
    ensures forall lines: seq<string>, tab: nat, width: int, minWidth: int | tab > 0 ::
      AllFit(lines, tab, width, minWidth) <==> forall i :: 0 <= i < |lines| ==> Fits(lines[i], tab, width, minWidth)
  {
  }

  // ---------------------------------------------------------------- the text

  /** "\n".join(lines) */
  function Join(lines: seq<string>): string {
    if lines == [] then "" else if |lines| == 1 then lines[0] else lines[0] + "\n" + Join(lines[1..])
  }

  /** The lines are put together with one line feed between any two. */
  lemma {:induction false} JoinAppend(a: seq<string>, b: seq<string>)
    requires a != [] && b != []
    ensures Join(a + b) == Join(a) + "\n" + Join(b)
  {
    if |a| == 1 {
      assert (a + b)[1..] == b;
    } else {
      assert (a + b)[1..] == a[1..] + b;
      JoinAppend(a[1..], b);
    }
  }

  /** dumps */
  function Dumps(t: Tree, tab: int, width: int, minWidth: int): Option<string> {
    var lines := Dump(t, tab, width, minWidth);
    if lines.None? then None else Some(Join(lines.value))
  }

  /** Text on one line. */
  predicate Unbroken(s: string) { forall i :: 0 <= i < |s| ==> !R.IsBreak(s[i]) }

  ghost predicate NoBreaks(lines: seq<string>) { forall i :: 0 <= i < |lines| ==> Unbroken(lines[i]) }

  lemma {:induction false} SplitFirst(line: string, rest: string)
    requires Unbroken(line)
    ensures R.Split(line) == [line]
    ensures R.Split(line + "\n" + rest) == [line] + R.Split(rest)
  {
    var text := line + "\n" + rest;
    if line == "" {
      assert text[1..] == rest;
    } else {
      SplitFirst(line[1..], rest);
      assert text[1..] == line[1..] + "\n" + rest;
      assert [line[0]] + line[1..] == line;
      assert R.Split(line[1..])[1..] == [] && ([line[1..]] + R.Split(rest))[1..] == R.Split(rest);
    }
  }

  lemma {:induction false} SplitJoin(lines: seq<string>)
    requires lines != [] && NoBreaks(lines)
    ensures R.Split(Join(lines)) == lines
  {
    if |lines| == 1 {
      SplitFirst(lines[0], "");
    } else {
      SplitJoin(lines[1..]);
      SplitFirst(lines[0], Join(lines[1..]));
    }
  }

  /** Text without breaks put together has none. */
  lemma UnbrokenConcat(a: string, b: string)
    requires Unbroken(a) && Unbroken(b)
    ensures Unbroken(a + b)
  {
  }

  lemma StringHasNoBreak(s: string)
    requires CleanString(s)
    ensures Unbroken(DumpsString(s))
  {
  }

  lemma SimpleHasNoBreak(t: Tree)
    requires IsSimple(t) && Clean(t)
    ensures Unbroken(DumpsSimple(t))
  {
    match t
    case Str(s) => StringHasNoBreak(s);
    case Num(n) => IntTextIsPlain(n);
    case _ =>
  }

  lemma {:induction false} JoinSimpleHasNoBreak(ts: seq<Tree>, sep: string)
    requires AllSimple(ts) && AllClean(ts) && Unbroken(sep)
    ensures Unbroken(JoinSimple(ts, sep))
  {
    hide Unbroken, DumpsSimple, Clean;
    if ts == [] {
      EmptyHasNoBreak();
    } else {
      SimpleHasNoBreak(ts[0]);
      JoinSimpleHasNoBreak(ts[1..], sep);
      UnbrokenConcat(DumpsSimple(ts[0]), sep);
      UnbrokenConcat(DumpsSimple(ts[0]) + sep, JoinSimple(ts[1..], sep));
    }
  }

  lemma {:induction false} JoinEntriesHasNoBreak(es: seq<Entry>)
    requires SimpleValues(es) && AllCleanEntries(es)
    ensures Unbroken(JoinEntries(es))
  {
    PartsHaveNoBreak();
    if es != [] {
      var key, val := DumpsString(es[0].key), DumpsSimple(es[0].val);
      assert CleanEntry(es[0]);
      StringHasNoBreak(es[0].key);
      SimpleHasNoBreak(es[0].val);
      hide Unbroken, DumpsSimple, DumpsString, Clean, CleanString;
      JoinEntriesHasNoBreak(es[1..]);
      UnbrokenConcat(key, ": ");
      UnbrokenConcat(key + ": ", val);
      UnbrokenConcat(key + ": " + val, ", ");
      UnbrokenConcat(key + ": " + val + ", ", JoinEntries(es[1..]));
    }
  }

  lemma EmptyHasNoBreak()
    ensures Unbroken("")
  {
  }

  lemma PartsHaveNoBreak()
    ensures Unbroken("") && Unbroken(": ") && Unbroken(", ") && Unbroken(",")
    ensures Unbroken("[") && Unbroken("]") && Unbroken("{") && Unbroken("}") && Unbroken("{}")
  {
  }

  lemma OneLineHasNoBreak(t: Tree, w: int)
    requires Clean(t) && OnOneLine(t, w)
    ensures Unbroken(OneLine(t, w))
  {
    PartsHaveNoBreak();
    hide Unbroken, DumpsSimple, DumpsString, CleanString, JoinSimple, JoinEntries, SortEntries;
    match t
    case List(items) =>
      var sep := if AllNums(items) then ", " else ",";
      JoinSimpleHasNoBreak(items, sep);
      UnbrokenConcat("[", JoinSimple(items, sep));
      UnbrokenConcat("[" + JoinSimple(items, sep), "]");
    case Dict(entries) =>
      if entries != [] {
        SortKeepsClean(entries);
        JoinEntriesHasNoBreak(SortEntries(entries));
        UnbrokenConcat("{", JoinEntries(SortEntries(entries)));
        UnbrokenConcat("{" + JoinEntries(SortEntries(entries)), "}");
      }
    case _ => SimpleHasNoBreak(t);
  }

  lemma IndentHasNoBreak(pad: string, lines: seq<string>)
    requires NoBreaks(lines) && Unbroken(pad)
    ensures NoBreaks(Indent(pad, lines))
  {
  }

  lemma {:induction false} DumpHasNoBreak(t: Tree, tab: int, width: int, minWidth: int)
    requires Clean(t)
    ensures var lines := Dump(t, tab, width, minWidth); lines.Some? ==> NoBreaks(lines.value)
    decreases t, 1
  {
    hide NoBreaks, DumpItems, DumpEntries;
    var w := Clamp(width, minWidth);
    if OnOneLine(t, w) {
      DumpOneLine(t, tab, width, minWidth);
      OneLineHasNoBreak(t, w);
      OneHasNoBreak(OneLine(t, w));
    } else if t.List? {
      ItemsHaveNoBreak(t.items, tab, w - tab, minWidth);
    } else {
      EntriesHaveNoBreak(t.entries, tab, w, minWidth);
    }
  }

  lemma OneHasNoBreak(line: string)
    ensures NoBreaks([line]) <==> Unbroken(line)
  {
    assert [line][0] == line;
  }

  lemma {:induction false} ItemsHaveNoBreak(items: seq<Tree>, tab: int, width: int, minWidth: int)
    requires AllClean(items)
    ensures var lines := DumpItems(items, tab, width, minWidth); lines.Some? ==> NoBreaks(lines.value)
    decreases items, 0
  {
    hide Dump, Clean;
    if items != [] {
      var first := Dump(items[0], tab, width, minWidth);
      DumpHasNoBreak(items[0], tab, width, minWidth);
      ItemsHaveNoBreak(items[1..], tab, width, minWidth);
      if first.Some? && first.value != [] {
        IndentHasNoBreak(Spaces(tab), first.value[1..]);
        OneHasNoBreak("-" + Spaces(tab - 1) + first.value[0]);
      }
    }
  }

  lemma {:induction false} EntriesHaveNoBreak(es: seq<Entry>, tab: int, w: int, minWidth: int)
    requires AllCleanEntries(es)
    ensures var lines := DumpEntries(es, tab, w, minWidth); lines.Some? ==> NoBreaks(lines.value)
    decreases es, 0
  {
    hide Dump, Clean, CleanString, DumpsString;
    if es != [] {
      var first := Dump(es[0].val, tab, w - tab, minWidth);
      assert CleanEntry(es[0]);
      StringHasNoBreak(es[0].key);
      DumpHasNoBreak(es[0].val, tab, w - tab, minWidth);
      EntriesHaveNoBreak(es[1..], tab, w, minWidth);
      if first.Some? {
        IndentHasNoBreak(Spaces(tab), first.value);
      }
    }
  }

  /** A text with a line break has more than one line. */
  lemma {:induction false} BrokenTextHasLines(text: string)
    requires !Unbroken(text)
    ensures |R.Split(text)| > 1
  {
    if Unbroken(text[1..]) {
      assert R.IsBreak(text[0]);
      assert |text| > 1 ==> text[1] == text[1..][0];
    } else {
      BrokenTextHasLines(text[1..]);
    }
  }

  predicate IsReadBack(text: Option<string>, t: Tree) {
    text.Some? && R.Decode(R.Split(text.value)) == Some(Denote(t))
  }

  /** The text that dumps returns is read back as the tree exactly when the tree is printable. */
  lemma DumpsRoundTripIff(t: Tree, tab: int, width: int, minWidth: int)
    requires tab >= 2 && Clean(t)
    ensures IsReadBack(Dumps(t, tab, width, minWidth), t) <==> Printable(t, tab, width, minWidth)
  {
    hide Dump, R.Decode, Printable, Clean, Join, R.Split;
    RoundTripIff(t, tab, width, minWidth);
    DumpHasNoBreak(t, tab, width, minWidth);
    DumpStarts(t, tab, width, minWidth);
    var lines := Dump(t, tab, width, minWidth);
    if lines.Some? && lines.value != [] {
      SplitJoin(lines.value);
    } else {
      LostIsNotPrintable(t, tab, width, minWidth);
      NoLinesAreUnreadable();
    }
  }

  lemma NoLinesAreUnreadable()
    ensures R.Decode(R.Split(Join([]))) == None
  {
    assert R.ReadKey("").None?;
  }

  /** The text of a string is read back if and only if the string is clean. */
  lemma StringTextReadBackIff(s: string, tab: int, width: int, minWidth: int)
    ensures IsReadBack(Dumps(Str(s), tab, width, minWidth), Str(s)) <==> CleanString(s)
  {
    hide R.ReadInline, CleanString, R.DecodeItems, R.DecodeEntries;
    var text := DumpsString(s);
    assert Dumps(Str(s), tab, width, minWidth) == Some(text);
    StringReadBackIff(s);
    if Unbroken(text) {
      SplitFirst(text, "");
      SimpleStarts(Str(s));
      OneLineDecodes(text);
    } else {
      BrokenTextHasLines(text);
      LinesAreNoString(R.Split(text), s);
      if CleanString(s) {
        StringHasNoBreak(s);
      }
    }
  }

  lemma OneLineDecodes(text: string)
    requires !R.IsItem(text)
    ensures forall s :: R.Decode([text]) == Some(R.VStr(s)) <==> R.ReadInline(text) == Some(R.VStr(s))
  {
    hide R.ReadInline, R.DecodeEntries;
  }
}
