/** The Prometheus text format: parsing what was rendered. */
module Exposition {
  import opened Options

  /** Characters that end a line, and characters that are stripped. */
  predicate IsBreak(c: char) {
    c == '\n' || c == '\r' || c == '\U{000B}' || c == '\U{000C}' || c == '\U{001C}' || c == '\U{001D}' || c == '\U{001E}'
    || c == '\U{0085}' || c == '\U{2028}' || c == '\U{2029}'
  }

  predicate IsSpace(c: char) {
    IsBreak(c) || c == ' ' || c == '\t' || c == '\U{001F}' || c == '\U{00A0}' || c == '\U{1680}'
    || '\U{2000}' <= c <= '\U{200A}' || c == '\U{202F}' || c == '\U{205F}' || c == '\U{3000}'
  }

  function FirstBreak(s: string): (k: nat)
    ensures k <= |s| && (k < |s| ==> IsBreak(s[k]))
    ensures forall j :: 0 <= j < k ==> !IsBreak(s[j])
  {
    if s == [] || IsBreak(s[0]) then 0 else 1 + FirstBreak(s[1..])
  }

  /** The lines of a text.  A pair of breaks gives an extra empty line, which is skipped. */
  function SplitLines(s: string): seq<string>
    decreases |s|
  {
    var k := FirstBreak(s);
    if k == |s| then (if s == [] then [] else [s])
    else [s[..k]] + SplitLines(s[k + 1..])
  }

  function LeftStrip(s: string): string {
    if s != [] && IsSpace(s[0]) then LeftStrip(s[1..]) else s
  }

  function RightStrip(s: string): string {
    if s != [] && IsSpace(s[|s| - 1]) then RightStrip(s[..|s| - 1]) else s
  }

  function Strip(s: string): string {
    RightStrip(LeftStrip(s))
  }

  /** The first, or last, place of a character, or the length. */
  function First(s: string, c: char): (k: nat)
    ensures k <= |s| && (k < |s| ==> s[k] == c)
    ensures forall j :: 0 <= j < k ==> s[j] != c
  {
    if s == [] || s[0] == c then 0 else 1 + First(s[1..], c)
  }

  function Last(s: string, c: char): (k: nat)
    ensures k <= |s| && (k < |s| ==> s[k] == c && forall j :: k < j < |s| ==> s[j] != c)
    ensures k == |s| ==> forall j :: 0 <= j < |s| ==> s[j] != c
  {
    if s == [] then 0
    else if s[|s| - 1] == c then |s| - 1
    else
      var k := Last(s[..|s| - 1], c);
      if k == |s| - 1 then |s| else k
  }

  type Families = map<string, map<string, real>>

  function Set(m: Families, name: string, labels: string, value: real): Families {
    m[name := (if name in m then m[name] else map[])[labels := value]]
  }

  /** A line gives a sample, nothing, or an exception nobody in the parser catches. */
  datatype Line = Skip | Raises | Entry(name: string, labels: string, value: real)

  /** `number` is the conversion of a text to a float. */
  function ParseLine(raw: string, number: string -> Option<real>): Line {
    var line := Strip(raw);
    if line == "" || line[0] == '#' then Skip
    else
      var open := First(line, '{');
      if open < |line| then
        var rest := line[open + 1..];
        var close := Last(rest, '}');
        if close == |rest| then Raises
        else
          var v := number(Strip(rest[close + 1..]));
          if v.Some? then Entry(Strip(line[..open]), Strip(rest[..close]), v.value) else Skip
      else
        var gap := Last(line, ' ');
        if gap == |line| then Raises
        else
          var v := number(Strip(line[gap + 1..]));
          if v.Some? then Entry(Strip(line[..gap]), "", v.value) else Skip
  }

  function ParseLines(lines: seq<string>, number: string -> Option<real>, acc: Families): Option<Families>
    decreases |lines|
  {
    if lines == [] then Some(acc)
    else match ParseLine(lines[0], number)
      case Skip => ParseLines(lines[1..], number, acc)
      case Raises => None
      case Entry(name, labels, value) => ParseLines(lines[1..], number, Set(acc, name, labels, value))
  }

  function Parse(text: string, number: string -> Option<real>): Option<Families> {
    ParseLines(SplitLines(text), number, map[])
  }

  /** The parser's loop; no result means that it raised. */
  method ParsePrometheusText(text: string, number: string -> Option<real>) returns (r: Option<Families>)
    ensures r == Parse(text, number)
  {
    var result: Families := map[];
    var lines := SplitLines(text);
    ghost var parsed := Parse(text, number);
    assert lines[0..] == lines;
    for k := 0 to |lines|
      invariant ParseLines(lines[k..], number, result) == parsed
    {
      var line := Strip(lines[k]);
      ghost var l := ParseLine(lines[k], number);
      LineStep(lines, k, number, result, l);
      if line == "" || line[0] == '#' {
        continue;
      }
      var name, labels, value;
      var open := First(line, '{');
      if open < |line| {
        var rest := line[open + 1..];
        var close := Last(rest, '}');
        if close == |rest| {
          return None;
        }
        name, labels, value := line[..open], rest[..close], rest[close + 1..];
        assert l == Given(name, labels, value, number);
      } else {
        var gap := Last(line, ' ');
        if gap == |line| {
          return None;
        }
        name, labels, value := line[..gap], "", line[gap + 1..];
        assert l == Given(name, labels, value, number);
      }
      var v := number(Strip(value));
      if v.None? {
        continue;
      }
      result := Set(result, Strip(name), Strip(labels), v.value);
    }
    assert lines[|lines|..] == [];
    return Some(result);
  }

  lemma LineStep(lines: seq<string>, k: nat, number: string -> Option<real>, acc: Families, l: Line)
    requires k < |lines| && l == ParseLine(lines[k], number)
    ensures ParseLines(lines[k..], number, acc)
            == match l
               case Skip => ParseLines(lines[k + 1..], number, acc)
               case Raises => None
               case Entry(name, labels, value) => ParseLines(lines[k + 1..], number, Set(acc, name, labels, value))
  {
    assert lines[k..][0] == lines[k] && lines[k..][1..] == lines[k + 1..];
  }

  /** The sample with these parts, or nothing if its value is no number. */
  function Given(name: string, labels: string, value: string, number: string -> Option<real>): Line {
    match number(Strip(value))
    case Some(v) => Entry(Strip(name), Strip(labels), v)
    case None => Skip
  }

  // ---------------------------------------------------------------- rendering

  datatype Sample = Sample(name: string, labels: string, value: string)

  predicate Clean(s: string) {
    forall c :: c in s ==> !IsSpace(c) && c != '{' && c != '}'
  }

  /** Names and values are tokens; labels may hold braces, spaces and hashes, but no line
      break and no space at their ends. */
  predicate WellFormed(s: Sample, number: string -> Option<real>) {
    && s.name != "" && s.name[0] != '#' && Clean(s.name)
    && s.value != "" && Clean(s.value) && number(s.value).Some?
    && (forall c :: c in s.labels ==> !IsBreak(c))
    && (s.labels != "" ==> !IsSpace(s.labels[0]) && !IsSpace(s.labels[|s.labels| - 1]))
  }

  function RenderLine(s: Sample): string {
    if s.labels == "" then s.name + " " + s.value
    else s.name + "{" + s.labels + "} " + s.value
  }

  /** A line of an exposition: a sample, a comment (help and type information are comments),
      or nothing. */
  datatype Item = Metric(sample: Sample) | Comment(indent: string, text: string) | Blank(space: string)

  predicate WellFormedItem(item: Item, number: string -> Option<real>) {
    match item
    case Metric(s) => WellFormed(s, number)
    case Comment(indent, text) => Padding(indent) && forall c :: c in text ==> !IsBreak(c)
    case Blank(space) => Padding(space)
  }

  predicate Padding(s: string) {
    forall c :: c in s ==> IsSpace(c) && !IsBreak(c)
  }

  function RenderItem(item: Item): string {
    match item
    case Metric(s) => RenderLine(s)
    case Comment(indent, text) => indent + ("#" + text)
    case Blank(space) => space
  }

  function Render(items: seq<Item>): string {
    if items == [] then "" else RenderItem(items[0]) + "\n" + Render(items[1..])
  }

  /** The samples among the lines. */
  function Samples(items: seq<Item>): seq<Sample> {
    if items == [] then []
    else (if items[0].Metric? then [items[0].sample] else []) + Samples(items[1..])
  }

  function MapOf(samples: seq<Sample>, number: string -> Option<real>, acc: Families): Families
    decreases |samples|
  {
    if samples == [] || number(samples[0].value).None? then acc
    else MapOf(samples[1..], number, Set(acc, samples[0].name, samples[0].labels, number(samples[0].value).value))
  }

  // ---------------------------------------------------------------- the round trip

  lemma StripsNothing(s: string)
    requires s != "" ==> !IsSpace(s[0]) && !IsSpace(s[|s| - 1])
    ensures Strip(s) == s
  {
  }

  lemma FirstIs(s: string, c: char, k: nat)
    requires k < |s| && s[k] == c && forall j :: 0 <= j < k ==> s[j] != c
    ensures First(s, c) == k
  {
  }

  lemma LastIs(s: string, c: char, k: nat)
    requires k < |s| && s[k] == c && forall j :: k < j < |s| ==> s[j] != c
    ensures Last(s, c) == k
  {
    var l := Last(s, c);
    assert l != |s| && !(l < k) && !(l > k);
  }

  lemma SpaceBeforeValue(v: string)
    requires v != "" && !IsSpace(v[0]) && !IsSpace(v[|v| - 1])
    ensures Strip(" " + v) == v
  {
    assert (" " + v)[1..] == v;
    assert LeftStrip(" " + v) == LeftStrip(v) == v;
  }

  lemma AfterTheBrace(labels: string, value: string)
    requires value != "" && Clean(value)
    ensures var rest := labels + "} " + value;
            && Last(rest, '}') == |labels| < |rest|
            && rest[..|labels|] == labels && rest[|labels| + 1..] == " " + value
  {
    var rest := labels + "} " + value;
    assert rest[|labels|] == '}';
    forall j | |labels| < j < |rest| ensures rest[j] != '}' {
      if j > |labels| + 1 {
        assert rest[j] == value[j - |labels| - 2] && value[j - |labels| - 2] in value;
      }
    }
    LastIs(rest, '}', |labels|);
  }

  lemma BeforeTheBrace(s: Sample, number: string -> Option<real>)
    requires WellFormed(s, number) && s.labels != ""
    ensures var line, n := RenderLine(s), |s.name|;
            && Strip(line) == line && line != "" && line[0] != '#'
            && First(line, '{') == n < |line|
            && line[..n] == s.name && line[n + 1..] == s.labels + "} " + s.value
  {
    var line, n := RenderLine(s), |s.name|;
    assert s.name[0] in s.name && s.value[|s.value| - 1] in s.value;
    assert line[0] == s.name[0] && line[|line| - 1] == s.value[|s.value| - 1] && line[n] == '{';
    StripsNothing(line);
    assert forall j :: 0 <= j < n ==> line[j] == s.name[j] && s.name[j] in s.name;
    FirstIs(line, '{', n);
  }

  lemma LabelledLine(s: Sample, number: string -> Option<real>)
    requires WellFormed(s, number) && s.labels != ""
    ensures ParseLine(RenderLine(s), number) == Entry(s.name, s.labels, number(s.value).value)
  {
    BeforeTheBrace(s, number);
    AfterTheBrace(s.labels, s.value);
    assert s.name[0] in s.name && s.name[|s.name| - 1] in s.name;
    assert s.value[0] in s.value && s.value[|s.value| - 1] in s.value;
    SpaceBeforeValue(s.value);
    StripsNothing(s.name);
    StripsNothing(s.labels);
  }

  lemma BareLine(s: Sample, number: string -> Option<real>)
    requires WellFormed(s, number) && s.labels == ""
    ensures ParseLine(RenderLine(s), number) == Entry(s.name, "", number(s.value).value)
  {
    var line := RenderLine(s);
    var n := |s.name|;
    assert line[..n] == s.name && line[n] == ' ' && line[n + 1..] == s.value;
    assert line[0] == s.name[0] && line[|line| - 1] == s.value[|s.value| - 1];
    StripsNothing(line);
    forall j | 0 <= j < |line| ensures line[j] != '{' && (j > n ==> line[j] != ' ') {
      if j > n {
        assert line[j] == s.value[j - n - 1] && s.value[j - n - 1] in s.value;
      } else if j < n {
        assert line[j] == s.name[j] && s.name[j] in s.name;
      }
    }
    LastIs(line, ' ', n);
    StripsNothing(s.value);
    StripsNothing(s.name);
  }

  lemma RenderedLineUnbroken(s: Sample, number: string -> Option<real>)
    requires WellFormed(s, number)
    ensures forall j :: 0 <= j < |RenderLine(s)| ==> !IsBreak(RenderLine(s)[j])
  {
    forall j | 0 <= j < |RenderLine(s)| ensures !IsBreak(RenderLine(s)[j]) {
      var c := RenderLine(s)[j];
      assert c in s.name || c in s.labels || c in s.value || c == '{' || c == '}' || c == ' ';
    }
  }

  lemma FirstLine(line: string, rest: string)
    requires forall j :: 0 <= j < |line| ==> !IsBreak(line[j])
    ensures SplitLines(line + "\n" + rest) == [line] + SplitLines(rest)
  {
    var text := line + "\n" + rest;
    assert text[|line|] == '\n' && forall j :: 0 <= j < |line| ==> text[j] == line[j];
    var k := FirstBreak(text);
    assert IsBreak(text[|line|]);
    assert k == |line|;
    assert text[..k] == line && text[k + 1..] == rest;
  }

  lemma {:induction false} PaddingStrips(indent: string, rest: string)
    requires Padding(indent)
    ensures LeftStrip(indent + rest) == LeftStrip(rest)
  {
    if indent == "" {
      assert indent + rest == rest;
    } else {
      assert indent[0] in indent;
      assert (indent + rest)[1..] == indent[1..] + rest;
      PaddingStrips(indent[1..], rest);
    }
  }

  lemma {:induction false} RightStripKeepsFirst(s: string)
    requires s != "" && !IsSpace(s[0])
    ensures RightStrip(s) != "" && RightStrip(s)[0] == s[0]
  {
    if IsSpace(s[|s| - 1]) {
      RightStripKeepsFirst(s[..|s| - 1]);
    }
  }

  lemma CommentsAndBlanksAreSkipped(item: Item, number: string -> Option<real>)
    requires WellFormedItem(item, number) && !item.Metric?
    ensures ParseLine(RenderItem(item), number) == Skip
  {
    match item
    case Comment(indent, text) =>
      PaddingStrips(indent, "#" + text);
      RightStripKeepsFirst("#" + text);
    case Blank(space) =>
      PaddingStrips(space, "");
      assert space + "" == space;
  }

  lemma RenderedItemUnbroken(item: Item, number: string -> Option<real>)
    requires WellFormedItem(item, number)
    ensures forall j :: 0 <= j < |RenderItem(item)| ==> !IsBreak(RenderItem(item)[j])
  {
    match item
    case Metric(s) => RenderedLineUnbroken(s, number);
    case Comment(indent, text) =>
      forall j | 0 <= j < |RenderItem(item)| ensures !IsBreak(RenderItem(item)[j]) {
        var c := RenderItem(item)[j];
        assert c in indent || c == '#' || c in text;
      }
    case Blank(space) =>
      assert forall j :: 0 <= j < |space| ==> space[j] in space;
  }

  lemma {:induction false} ParseAfterRender(items: seq<Item>, number: string -> Option<real>, acc: Families)
    requires forall item :: item in items ==> WellFormedItem(item, number)
    ensures ParseLines(SplitLines(Render(items)), number, acc) == Some(MapOf(Samples(items), number, acc))
    decreases |items|
  {
    if items != [] {
      var item, rest := items[0], Render(items[1..]);
      assert item in items && WellFormedItem(item, number);
      RenderedItemUnbroken(item, number);
      FirstLine(RenderItem(item), rest);
      var lines := [RenderItem(item)] + SplitLines(rest);
      assert lines[1..] == SplitLines(rest);
      if item.Metric? {
        var s := item.sample;
        if s.labels == "" { BareLine(s, number); } else { LabelledLine(s, number); }
        ParseAfterRender(items[1..], number, Set(acc, s.name, s.labels, number(s.value).value));
        assert Samples(items)[1..] == Samples(items[1..]);
      } else {
        CommentsAndBlanksAreSkipped(item, number);
        ParseAfterRender(items[1..], number, acc);
        assert Samples(items) == Samples(items[1..]);
      }
    }
  }

  lemma {:induction false} SamplesAreItems(items: seq<Item>, number: string -> Option<real>)
    requires forall item :: item in items ==> WellFormedItem(item, number)
    ensures forall s :: s in Samples(items) <==> Metric(s) in items
    ensures forall s :: s in Samples(items) ==> WellFormed(s, number)
  {
    if items != [] {
      SamplesAreItems(items[1..], number);
      assert items == [items[0]] + items[1..];
      assert WellFormedItem(items[0], number);
    }
  }

  ghost predicate Holds(m: Families, name: string, labels: string, value: real) {
    name in m && labels in m[name] && m[name][labels] == value
  }

  ghost predicate DistinctKeys(samples: seq<Sample>) {
    forall i, j :: 0 <= i < j < |samples| ==> samples[i].name != samples[j].name || samples[i].labels != samples[j].labels
  }

  lemma {:induction false} MapOfHolds(samples: seq<Sample>, number: string -> Option<real>, acc: Families, name: string, labels: string, value: real)
    requires DistinctKeys(samples) && forall s :: s in samples ==> WellFormed(s, number)
    ensures Holds(MapOf(samples, number, acc), name, labels, value) <==>
              || (exists s :: s in samples && s.name == name && s.labels == labels && number(s.value) == Some(value))
              || ((forall s :: s in samples ==> s.name != name || s.labels != labels) && Holds(acc, name, labels, value))
    decreases |samples|
  {
    if samples != [] {
      var s := samples[0];
      assert WellFormed(s, number);
      MapOfHolds(samples[1..], number, Set(acc, s.name, s.labels, number(s.value).value), name, labels, value);
      assert samples == [s] + samples[1..];
    }
  }

  /** Parsing a rendered exposition gives exactly its samples, whatever braces, spaces or
      hashes their labels contain and whatever comments and blank lines stand between. */
  lemma RoundTrip(items: seq<Item>, number: string -> Option<real>)
    requires DistinctKeys(Samples(items)) && forall item :: item in items ==> WellFormedItem(item, number)
    ensures var r := Parse(Render(items), number);
            && r.Some?
            && forall name, labels, value :: Holds(r.value, name, labels, value) <==>
                 exists s :: Metric(s) in items && s.name == name && s.labels == labels && number(s.value) == Some(value)
  {
    var samples := Samples(items);
    ParseAfterRender(items, number, map[]);
    SamplesAreItems(items, number);
    var r := MapOf(samples, number, map[]);
    forall name, labels, value ensures Holds(r, name, labels, value) <==>
      exists s :: Metric(s) in items && s.name == name && s.labels == labels && number(s.value) == Some(value)
    {
      MapOfHolds(samples, number, map[], name, labels, value);
    }
  }

  predicate Unparsable(line: string) {
    && line != "" && line[0] != '#'
    && (if '{' in line then forall j :: First(line, '{') < j < |line| ==> line[j] != '}'
        else ' ' !in line)
  }

  /** A line with an opening brace and no closing one behind it, or with no opening brace and no
      space, is not skipped: it makes the parser raise. */
  lemma WhenLinesRaise(raw: string, number: string -> Option<real>)
    ensures ParseLine(raw, number).Raises? <==> Unparsable(Strip(raw))
  {
  }

  lemma {:induction false} LinesRaise(lines: seq<string>, number: string -> Option<real>, acc: Families)
    ensures ParseLines(lines, number, acc).None? <==> exists line :: line in lines && ParseLine(line, number).Raises?
    decreases |lines|
  {
    if lines != [] {
      assert lines == [lines[0]] + lines[1..];
      match ParseLine(lines[0], number)
      case Skip => LinesRaise(lines[1..], number, acc);
      case Raises =>
      case Entry(name, labels, value) => LinesRaise(lines[1..], number, Set(acc, name, labels, value));
    }
  }

  /** The parser raises exactly for a text with a line that has an opening brace and no
      closing one behind it, or no opening brace and no space. */
  lemma WhenTextsRaise(text: string, number: string -> Option<real>)
    ensures Parse(text, number).None? <==> exists line :: line in SplitLines(text) && Unparsable(Strip(line))
  {
    LinesRaise(SplitLines(text), number, map[]);
    forall line ensures ParseLine(line, number).Raises? <==> Unparsable(Strip(line)) {
      WhenLinesRaise(line, number);
    }
  }

  /** One such line is enough, whatever follows it. */
  lemma OneBadLineRaises(rest: string, number: string -> Option<real>)
    ensures Parse("oops" + "\n" + rest, number).None?
  {
    var line := "oops";
    FirstLine(line, rest);
    StripsNothing(line);
    WhenTextsRaise(line + "\n" + rest, number);
    assert SplitLines(line + "\n" + rest)[0] == line && Unparsable(Strip(line));
  }

  // ---------------------------------------------------------------- what any text means

  /** The ASCII characters among those that end lines and those that are stripped. */
  lemma AsciiSpaces(c: char)
    requires c < '\U{0080}'
    ensures IsBreak(c) <==> 10 <= c as int <= 13 || 28 <= c as int <= 30
    ensures IsSpace(c) <==> 9 <= c as int <= 13 || 28 <= c as int <= 32
  {
  }

  /** Lines with separators behind them; the last line may do without. */
  function Weave(lines: seq<string>, ends: string): string {
    if lines == [] then ""
    else if ends == "" then lines[0]
    else lines[0] + [ends[0]] + Weave(lines[1..], ends[1..])
  }

  /** The lines have no break in them, and woven with breaks they are the text. */
  ghost predicate Between(text: string, lines: seq<string>, ends: string) {
    && Weave(lines, ends) == text
    && (forall c :: c in ends ==> IsBreak(c))
    && (forall line :: line in lines ==> Unbroken(line))
    && (|ends| == |lines| || (|ends| == |lines| - 1 && lines[|lines| - 1] != ""))
  }

  ghost predicate Unbroken(line: string) {
    forall c :: c in line ==> !IsBreak(c)
  }

  lemma OneMoreLine(line: string, end: char, text: string, lines: seq<string>, ends: string)
    requires Between(text, lines, ends) && Unbroken(line) && IsBreak(end)
    ensures Between(line + [end] + text, [line] + lines, [end] + ends)
  {
    assert ([line] + lines)[1..] == lines && ([end] + ends)[1..] == ends;
  }

  lemma {:induction false} LinesAreBetweenBreaks(text: string) returns (ends: string)
    ensures Between(text, SplitLines(text), ends)
    decreases |text|
  {
    var k := FirstBreak(text);
    if k == |text| {
      ends := "";
    } else {
      ends := LinesAreBetweenBreaks(text[k + 1..]);
      OneMoreLine(text[..k], text[k], text[k + 1..], SplitLines(text[k + 1..]), ends);
      ends := [text[k]] + ends;
      assert text == text[..k] + [text[k]] + text[k + 1..];
    }
  }

  /** Without the spaces at its ends. */
  ghost predicate Trims(s: string, t: string) {
    exists i, j :: TrimsAt(s, t, i, j)
  }

  ghost predicate TrimsAt(s: string, t: string, i: int, j: int) {
    && 0 <= i <= j <= |s| && t == s[i..j]
    && (forall k :: 0 <= k < i ==> IsSpace(s[k])) && (forall k :: j <= k < |s| ==> IsSpace(s[k]))
    && (t != "" ==> !IsSpace(t[0]) && !IsSpace(t[|t| - 1]))
  }

  lemma {:induction false} LeftStripTrims(s: string) returns (i: nat)
    ensures i <= |s| && LeftStrip(s) == s[i..] && (forall k :: 0 <= k < i ==> IsSpace(s[k]))
    ensures LeftStrip(s) != "" ==> !IsSpace(LeftStrip(s)[0])
  {
    i := 0;
    if s != "" && IsSpace(s[0]) {
      i := LeftStripTrims(s[1..]);
      i := i + 1;
    }
  }

  lemma {:induction false} RightStripTrims(s: string) returns (j: nat)
    ensures j <= |s| && RightStrip(s) == s[..j] && (forall k :: j <= k < |s| ==> IsSpace(s[k]))
    ensures RightStrip(s) != "" ==> !IsSpace(s[j - 1])
  {
    j := |s|;
    if s != "" && IsSpace(s[|s| - 1]) {
      j := RightStripTrims(s[..|s| - 1]);
    }
  }

  lemma StripTrims(s: string)
    ensures Trims(s, Strip(s))
  {
    var i := LeftStripTrims(s);
    var rest := s[i..];
    var j := RightStripTrims(rest);
    assert rest[..j] == s[i..i + j];
    assert forall k :: i + j <= k < |s| ==> s[k] == rest[k - i];
    assert TrimsAt(s, Strip(s), i, i + j);
  }

  /** A line in its parts: in front of the first opening brace, up to the last closing one and
      behind it; without an opening brace, in front of the last space and behind it. */
  ghost predicate Parts(line: string, name: string, labels: string, value: string) {
    if '{' in line then line == name + "{" + labels + "}" + value && '{' !in name && '}' !in value
    else labels == "" && line == name + " " + value && ' ' !in value
  }

  lemma ClosingBrace(line: string, rest: string)
    requires line != "" && line[0] != '#' && !Unparsable(line) && First(line, '{') < |line| && rest == line[First(line, '{') + 1..]
    ensures Last(rest, '}') < |rest|
  {
    var open := First(line, '{');
    var j :| open < j < |line| && line[j] == '}';
    assert rest[j - open - 1] == '}';
  }

  lemma SplitAt(s: string, k: nat)
    requires k < |s|
    ensures s == s[..k] + [s[k]] + s[k + 1..]
  {
  }

  lemma JoinParts(name: string, rest: string, labels: string, value: string)
    requires rest == labels + "}" + value
    ensures name + "{" + rest == name + "{" + labels + "}" + value
  {
  }

  lemma NotBehindLast(s: string, c: char)
    requires Last(s, c) < |s|
    ensures c !in s[Last(s, c) + 1..]
  {
  }

  lemma BracedLine(line: string, rest: string, close: nat, number: string -> Option<real>, l: Line)
    requires line != "" && line[0] != '#' && Strip(line) == line && First(line, '{') < |line|
    requires rest == line[First(line, '{') + 1..] && close == Last(rest, '}') < |rest|
    requires l == Given(line[..First(line, '{')], rest[..close], rest[close + 1..], number)
    ensures ParseLine(line, number) == l
  {
  }

  lemma BracedJoin(line: string, open: nat, rest: string, close: nat)
    requires open < |line| && line[open] == '{' && rest == line[open + 1..] && close < |rest| && rest[close] == '}'
    ensures line == line[..open] + "{" + rest[..close] + "}" + rest[close + 1..]
  {
    SplitAt(line, open);
    SplitAt(rest, close);
    JoinParts(line[..open], rest, rest[..close], rest[close + 1..]);
  }

  lemma BracedParts(line: string, number: string -> Option<real>) returns (name: string, labels: string, value: string)
    requires line != "" && line[0] != '#' && Strip(line) == line && !Unparsable(line) && First(line, '{') < |line|
    ensures line == name + "{" + labels + "}" + value && '{' !in name && '}' !in value
    ensures ParseLine(line, number) == Given(name, labels, value, number)
  {
    var open := First(line, '{');
    var rest := line[open + 1..];
    ClosingBrace(line, rest);
    var close := Last(rest, '}');
    name, labels, value := line[..open], rest[..close], rest[close + 1..];
    NotBehindLast(rest, '}');
    BracedJoin(line, open, rest, close);
    BracedLine(line, rest, close, number, Given(name, labels, value, number));
  }

  lemma BareParts(line: string, number: string -> Option<real>) returns (name: string, value: string)
    requires line != "" && line[0] != '#' && Strip(line) == line && !Unparsable(line) && First(line, '{') == |line|
    ensures line == name + " " + value && ' ' !in value
    ensures ParseLine(line, number) == Given(name, "", value, number)
  {
    var gap := Last(line, ' ');
    name, value := line[..gap], line[gap + 1..];
    assert Strip("") == "";
  }

  lemma PartsOf(line: string, number: string -> Option<real>) returns (name: string, labels: string, value: string)
    requires line != "" && line[0] != '#' && Strip(line) == line && !Unparsable(line)
    ensures Parts(line, name, labels, value) && ParseLine(line, number) == Given(name, labels, value, number)
  {
    if First(line, '{') < |line| {
      name, labels, value := BracedParts(line, number);
    } else {
      labels := "";
      name, value := BareParts(line, number);
    }
  }

  /** What any line gives: nothing if it is blank or a comment or its value is no number; a
      sample of its trimmed parts otherwise; and it raises only if it has no such parts. */
  ghost predicate Means(raw: string, number: string -> Option<real>, l: Line) {
    exists line :: Trims(raw, line) && LineMeans(line, number, l)
  }

  ghost predicate LineMeans(line: string, number: string -> Option<real>, l: Line) {
    if line == "" || line[0] == '#' then l == Skip
    else if Unparsable(line) then l == Raises
    else exists name, labels, value :: Parts(line, name, labels, value) && PartsMean(name, labels, value, number, l)
  }

  ghost predicate PartsMean(name: string, labels: string, value: string, number: string -> Option<real>, l: Line) {
    exists n, k, text ::
      && Trims(name, n) && Trims(labels, k) && Trims(value, text)
      && l == match number(text) case Some(v) => Entry(n, k, v) case None => Skip
  }

  lemma StripAgain(s: string)
    ensures Strip(Strip(s)) == Strip(s)
  {
    StripTrims(s);
    var i, j :| TrimsAt(s, Strip(s), i, j);
    StripsNothing(Strip(s));
  }

  lemma TrimmedLineMeans(line: string, number: string -> Option<real>)
    requires Strip(line) == line
    ensures LineMeans(line, number, ParseLine(line, number))
  {
    WhenLinesRaise(line, number);
    if line != "" && line[0] != '#' && !Unparsable(line) {
      var name, labels, value := PartsOf(line, number);
      StripTrims(name);
      StripTrims(labels);
      StripTrims(value);
      assert PartsMean(name, labels, value, number, ParseLine(line, number));
    }
  }

  lemma ParseTrims(raw: string, number: string -> Option<real>)
    ensures ParseLine(raw, number) == ParseLine(Strip(raw), number)
  {
    StripAgain(raw);
  }

  lemma LinesMean(raw: string, number: string -> Option<real>)
    ensures Means(raw, number, ParseLine(raw, number))
  {
    StripTrims(raw);
    StripAgain(raw);
    ParseTrims(raw, number);
    TrimmedLineMeans(Strip(raw), number);
  }

  /** The last line of a text that gives a sample of this name and labels gives this value. */
  ghost predicate LastGives(lines: seq<string>, number: string -> Option<real>, name: string, labels: string, value: real) {
    exists k :: GivesAt(lines, number, name, labels, value, k)
  }

  ghost predicate GivesAt(lines: seq<string>, number: string -> Option<real>, name: string, labels: string, value: real, k: int) {
    && 0 <= k < |lines| && ParseLine(lines[k], number) == Entry(name, labels, value)
    && forall j :: k < j < |lines| ==> !Names(ParseLine(lines[j], number), name, labels)
  }

  predicate Names(l: Line, name: string, labels: string) {
    l.Entry? && l.name == name && l.labels == labels
  }

  ghost predicate NoneNames(lines: seq<string>, number: string -> Option<real>, name: string, labels: string) {
    forall j :: 0 <= j < |lines| ==> !Names(ParseLine(lines[j], number), name, labels)
  }

  lemma LaterGives(first: string, rest: seq<string>, number: string -> Option<real>, name: string, labels: string, value: real, k: int)
    ensures k >= 0 ==> (GivesAt([first] + rest, number, name, labels, value, k + 1) <==> GivesAt(rest, number, name, labels, value, k))
  {
    var lines := [first] + rest;
    assert forall j :: 0 <= j < |rest| ==> lines[j + 1] == rest[j];
    if k >= 0 && GivesAt(lines, number, name, labels, value, k + 1) {
      forall j | k < j < |rest| ensures !Names(ParseLine(rest[j], number), name, labels) {
        assert lines[j + 1] == rest[j];
      }
    }
  }

  lemma FirstGives(first: string, rest: seq<string>, number: string -> Option<real>, name: string, labels: string, value: real)
    ensures GivesAt([first] + rest, number, name, labels, value, 0)
            <==> ParseLine(first, number) == Entry(name, labels, value) && NoneNames(rest, number, name, labels)
  {
    var lines := [first] + rest;
    if GivesAt(lines, number, name, labels, value, 0) {
      forall j | 0 <= j < |rest| ensures !Names(ParseLine(rest[j], number), name, labels) {
        assert lines[j + 1] == rest[j];
      }
    }
  }

  lemma OneMoreGives(first: string, rest: seq<string>, number: string -> Option<real>, name: string, labels: string, value: real)
    ensures LastGives([first] + rest, number, name, labels, value) <==>
              || LastGives(rest, number, name, labels, value)
              || (ParseLine(first, number) == Entry(name, labels, value) && NoneNames(rest, number, name, labels))
  {
    FirstGives(first, rest, number, name, labels, value);
    if k :| GivesAt(rest, number, name, labels, value, k) {
      LaterGives(first, rest, number, name, labels, value, k);
    }
    if k :| GivesAt([first] + rest, number, name, labels, value, k) {
      LaterGives(first, rest, number, name, labels, value, k - 1);
    }
  }

  lemma SetHolds(acc: Families, l: Line, name: string, labels: string, value: real)
    requires l.Entry?
    ensures Holds(Set(acc, l.name, l.labels, l.value), name, labels, value) <==>
              if Names(l, name, labels) then l.value == value else Holds(acc, name, labels, value)
  {
  }

  lemma {:induction false} LinesHold(lines: seq<string>, number: string -> Option<real>, acc: Families, name: string, labels: string, value: real)
    requires ParseLines(lines, number, acc).Some?
    ensures Holds(ParseLines(lines, number, acc).value, name, labels, value) <==>
              LastGives(lines, number, name, labels, value) || (NoneNames(lines, number, name, labels) && Holds(acc, name, labels, value))
    decreases |lines|
  {
    if lines != [] {
      var first, rest := ParseLine(lines[0], number), lines[1..];
      OneMoreGives(lines[0], rest, number, name, labels, value);
      assert lines == [lines[0]] + rest;
      if first.Entry? {
        LinesHold(rest, number, Set(acc, first.name, first.labels, first.value), name, labels, value);
        SetHolds(acc, first, name, labels, value);
      } else {
        LinesHold(rest, number, acc, name, labels, value);
      }
      NoneNamesStep(lines, rest, number, name, labels);
    }
  }

  lemma NoneNamesStep(lines: seq<string>, rest: seq<string>, number: string -> Option<real>, name: string, labels: string)
    requires lines != [] && rest == lines[1..]
    ensures NoneNames(lines, number, name, labels) <==>
              !Names(ParseLine(lines[0], number), name, labels) && NoneNames(rest, number, name, labels)
  {
    if NoneNames(lines, number, name, labels) {
      forall j | 0 <= j < |rest| ensures !Names(ParseLine(rest[j], number), name, labels) {
        assert rest[j] == lines[j + 1];
      }
    }
  }

  /** For any text that does not raise, rendered or not, the result holds for each name and
      labels the value of the last line that gives one, and nothing else. */
  lemma TextsHold(text: string, number: string -> Option<real>, name: string, labels: string, value: real)
    ensures Parse(text, number).Some? ==>
              (Holds(Parse(text, number).value, name, labels, value) <==> LastGives(SplitLines(text), number, name, labels, value))
  {
    if Parse(text, number).Some? {
      LinesHold(SplitLines(text), number, map[], name, labels, value);
    }
  }
}
