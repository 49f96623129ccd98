/**
 * A reader for the YAML that pretty_yaml.py writes, after YAML 1.2.2: block collections by indentation (section 8.2),
 * flow collections of scalars (section 7.4), and the core schema for plain scalars (section 10.3.2). It is given
 * neither the tab size nor the width, and it knows nothing about the printer.
 */
module YamlReader {
  import opened Totals
  import opened Text

  datatype Value =
    | VStr(s: string)
    | VNum(n: int)
    | VBool(b: bool)
    | VNull
    | VOther(text: string)   // a float, a number in another base, or a quoted text with escapes
    | VList(items: seq<Value>)
    | VDict(entries: map<string, Value>)

  // ---------------------------------------------------------------- lines

  /** The lines of a text; a carriage return, a line feed, or the one before the other, ends a line. */
  function Split(text: string): (lines: seq<string>)
    ensures lines != []
  {
    if text == "" then [""]
    else
      var rest := Split(text[1..]);
      if text[0] == '\r' && |text| > 1 && text[1] == '\n' then rest
      else if IsBreak(text[0]) then [""] + rest
      else [[text[0]] + rest[0]] + rest[1..]
  }

  // ---------------------------------------------------------------- scalars

  predicate IsPlain(c: char) { IsAlnum(c) || c == '_' || c == '.' || c == '-' }

  /** A line break (section 5.4). */
  predicate IsBreak(c: char) { c == '\n' || c == '\r' }

  /** What may stand between quotes on one line: no character below a space but the tab (section 5.1). */
  predicate IsQuotable(c: char) { c >= ' ' || c == '\t' }

  predicate AllQuotable(s: string) { forall i :: 0 <= i < |s| ==> IsQuotable(s[i]) }

  /** How many characters at the start of s stay inside a quoted text, or inside a plain scalar. */
  function Span(s: string, quoted: bool): (n: nat)
    ensures n <= |s|
  {
    if s != "" && (if quoted then s[0] != '"' else IsPlain(s[0])) then 1 + Span(s[1..], quoted) else 0
  }

  predicate IsExponent(s: string) {
    s == "" || ((s[0] == 'e' || s[0] == 'E') && (
      var digits := if |s| > 1 && s[1] == '-' then s[2..] else s[1..];
      digits != "" && AllDigits(digits)))
  }

  predicate IsFloat(s: string) {
    var n := DigitSpan(s);
    if n == 0 then |s| > 1 && s[0] == '.' && DigitSpan(s[1..]) > 0 && IsExponent(s[1 + DigitSpan(s[1..])..])
    else if n < |s| && s[n] == '.' then IsExponent(s[n + 1 + DigitSpan(s[n + 1..])..])
    else IsExponent(s[n..])
  }

  predicate IsOctal(s: string) {
    |s| > 2 && s[..2] == "0o" && forall i :: 2 <= i < |s| ==> '0' <= s[i] <= '7'
  }

  predicate IsHex(s: string) {
    |s| > 2 && s[..2] == "0x" &&
    forall i :: 2 <= i < |s| ==> IsDigit(s[i]) || 'a' <= s[i] <= 'f' || 'A' <= s[i] <= 'F'
  }

  /** Plain scalars that the core schema does not read as strings, other than those in Resolve. */
  predicate IsOther(s: string) {
    s in ["Null", "NULL", "True", "TRUE", "False", "FALSE", ".nan", ".NaN", ".NAN"] ||
    IsOctal(s) || IsHex(s) ||
    (var unsigned := if s != "" && s[0] == '-' then s[1..] else s;
     unsigned in [".inf", ".Inf", ".INF"] || IsFloat(unsigned))
  }

  function Resolve(s: string): Value {
    if IsIntText(s) then VNum(IntOf(s))
    else if s == "true" then VBool(true)
    else if s == "false" then VBool(false)
    else if s == "null" then VNull
    else if IsOther(s) then VOther(s)
    else VStr(s)
  }

  /** One scalar at the start of s, and what follows it. */
  function ReadScalar(s: string): (r: Option<(Value, string)>)
    ensures r.Some? ==> |r.value.1| < |s|
  {
    if s == "" then None
    else if s[0] == '"' then
      var n := Span(s[1..], true);
      if n == |s| - 1 then None
      else
        var content := s[1..][..n];
        if !AllQuotable(content) then None
        else Some((if '\\' in content then VOther(content) else VStr(content), s[n + 2..]))
    else
      var n := Span(s, false);
      if n == 0 then None else Some((Resolve(s[..n]), s[n..]))
  }

  // ---------------------------------------------------------------- flow collections of scalars

  /** How many spaces s starts with. */
  function Leading(s: string): (n: nat)
    ensures n <= |s|
  {
    if s != "" && s[0] == ' ' then 1 + Leading(s[1..]) else 0
  }

  function Trim(s: string): (r: string)
    ensures |r| <= |s|
  {
    s[Leading(s)..]
  }

  /** The items up to the closing bracket, which ends the text. */
  function ReadFlowItems(s: string): Option<seq<Value>>
    decreases |s|
  {
    var item := ReadScalar(s);
    if item.None? then None
    else if item.value.1 == "]" then Some([item.value.0])
    else if item.value.1 == "" || item.value.1[0] != ',' then None
    else
      var rest := ReadFlowItems(Trim(item.value.1[1..]));
      if rest.None? then None else Some([item.value.0] + rest.value)
  }

  /** A string key and the text after its colon; a value must be separated from it by a space. */
  function ReadKey(s: string): (r: Option<(string, string)>)
    ensures r.Some? ==> |r.value.1| < |s|
  {
    var key := ReadScalar(s);
    if key.None? || !key.value.0.VStr? then None
    else
      var rest := key.value.1;
      if |rest| >= 1 && rest[0] == ':' && (|rest| == 1 || rest[1] == ' ')
      then Some((key.value.0.s, Trim(rest[1..]))) else None
  }

  function ReadFlowEntries(s: string): Option<map<string, Value>>
    decreases |s|
  {
    var key := ReadKey(s);
    if key.None? then None else
    var val := ReadScalar(key.value.1);
    if val.None? then None
    else if val.value.1 == "}" then Some(map[key.value.0 := val.value.0])
    else if val.value.1 == "" || val.value.1[0] != ',' then None
    else
      var rest := ReadFlowEntries(Trim(val.value.1[1..]));
      if rest.None? || key.value.0 in rest.value then None
      else Some(rest.value[key.value.0 := val.value.0])
  }

  /** A scalar or a flow collection that fills the line. */
  function ReadInline(s: string): Option<Value> {
    if s == "[]" then Some(VList([]))
    else if s == "{}" then Some(VDict(map[]))
    else if s != "" && s[0] == '[' then
      var items := ReadFlowItems(s[1..]);
      if items.None? then None else Some(VList(items.value))
    else if s != "" && s[0] == '{' then
      var entries := ReadFlowEntries(s[1..]);
      if entries.None? then None else Some(VDict(entries.value))
    else
      var scalar := ReadScalar(s);
      if scalar.Some? && scalar.value.1 == "" then Some(scalar.value.0) else None
  }

  // ---------------------------------------------------------------- block collections

  /** How many of the lines belong to the item or entry before them, because they are indented. */
  function GroupSize(lines: seq<string>): (n: nat)
    ensures n <= |lines|
  {
    if lines != [] && Leading(lines[0]) > 0 then 1 + GroupSize(lines[1..]) else 0
  }

  predicate Indented(lines: seq<string>, n: nat) { forall i :: 0 <= i < |lines| ==> n <= Leading(lines[i]) }

  function Dedent(lines: seq<string>, n: nat): (r: seq<string>)
    requires Indented(lines, n)
    ensures |r| == |lines|
    ensures forall i :: 0 <= i < |r| ==> r[i] == lines[i][n..]
  {
    seq(|lines|, i requires 0 <= i < |lines| => lines[i][n..])
  }

  /** What every step of the reader makes smaller. */
  function Size(lines: seq<string>): nat {
    if lines == [] then 0 else |lines[0]| + 1 + Size(lines[1..])
  }

  lemma {:induction false} SizeSplit(lines: seq<string>, k: nat)
    requires k <= |lines|
    ensures Size(lines) == Size(lines[..k]) + Size(lines[k..])
  {
    if k > 0 {
      SizeSplit(lines[1..], k - 1);
      assert lines[1..][..k - 1] == lines[..k][1..];
      assert lines[1..][k - 1..] == lines[k..];
    } else {
      assert lines[..0] == [] && lines[0..] == lines;
    }
  }

  lemma {:induction false} SizeDedent(lines: seq<string>, n: nat)
    requires Indented(lines, n)
    ensures Size(Dedent(lines, n)) <= Size(lines)
  {
    if lines != [] {
      assert Dedent(lines, n)[1..] == Dedent(lines[1..], n);
      SizeDedent(lines[1..], n);
    }
  }

  predicate IsItem(line: string) { |line| >= 2 && line[0] == '-' && line[1] == ' ' }

  /** The lines after the first that are indented under it. */
  function Group(lines: seq<string>): (g: seq<string>)
    requires lines != []
    ensures 1 + |g| <= |lines|
    ensures Size(lines) == |lines[0]| + 1 + Size(g) + Size(lines[1 + |g|..])
  {
    var k := GroupSize(lines[1..]);
    SizeSplit(lines[1..], k);
    assert lines[1..][k..] == lines[1 + k..];
    lines[1..][..k]
  }

  function Decode(lines: seq<string>): Option<Value>
    decreases Size(lines), 2
  {
    if lines == [] then Some(VNull)
    else if IsItem(lines[0]) then
      var items := DecodeItems(lines);
      if items.None? then None else Some(VList(items.value))
    else if |lines| == 1 && ReadInline(lines[0]).Some? then ReadInline(lines[0])
    else
      var entries := DecodeEntries(lines);
      if entries.None? then None else Some(VDict(entries.value))
  }

  function DecodeItems(lines: seq<string>): Option<seq<Value>>
    decreases Size(lines), 0
  {
    if lines == [] then Some([])
    else if !IsItem(lines[0]) then None
    else
      var n := 1 + Leading(lines[0][1..]);
      var group := Group(lines);
      if !Indented(group, n) then None else
      SizeDedent(group, n);
      var first := Decode([lines[0][n..]] + Dedent(group, n));
      var rest := DecodeItems(lines[1 + |group|..]);
      if first.None? || rest.None? then None else Some([first.value] + rest.value)
  }

  function DecodeEntries(lines: seq<string>): Option<map<string, Value>>
    decreases Size(lines), 1
  {
    if lines == [] then Some(map[]) else
    var key := ReadKey(lines[0]);
    if key.None? then None else
    var first := DecodeValue(lines, key.value.1);
    var rest := DecodeEntries(lines[1 + |Group(lines)|..]);
    if first.None? || rest.None? || key.value.0 in rest.value then None
    else Some(rest.value[key.value.0 := first.value])
  }

  /** The value of the entry on the first line: on that line, or in the lines indented under it. */
  function DecodeValue(lines: seq<string>, inline: string): Option<Value>
    requires lines != [] && |inline| < |lines[0]|
    decreases Size(lines), 0
  {
    var group := Group(lines);
    if inline != "" then
      if group == [] then ReadInline(inline) else None
    else if group == [] then Some(VNull)
    else
      var n := Leading(group[0]);
      if !Indented(group, n) then None else
      SizeDedent(group, n);
      Decode(Dedent(group, n))
  }
}
