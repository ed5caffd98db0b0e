/** The status tables that the openclaw CLI prints: how the agent reads them, and that it reads back what was rendered. */
module Table {
  import opened Wrappers
  import opened Strings

  const BAR := '\U{2502}'
  const RULES := "\U{2500}\U{251C}\U{253C}\U{2514}\U{250C}\U{2510}"

  const SECTIONS := ["Channels", "Telegram accounts", "Agents", "Diagnosis", "Gateway connection",
                     "Gateway last log", "Pasteable debug", "FAQ:", "Troubleshooting:", "Next steps:"]

  /** strings.Split with a one-character separator */
  function Split(s: string, sep: char): (parts: seq<string>)
    ensures parts != []
  {
    if s == "" then [""]
    else if s[0] == sep then [""] + Split(s[1..], sep)
    else
      var rest := Split(s[1..], sep);
      [[s[0]] + rest[0]] + rest[1..]
  }

  function TrimAll(parts: seq<string>): seq<string> {
    seq(|parts|, i requires 0 <= i < |parts| => Trim(parts[i]))
  }

  function SplitTableRow(line: string): seq<string> {
    TrimAll(Split(line, if BAR !in line && '|' in line then '|' else BAR))
  }

  predicate ContainsAny(s: string, chars: string) {
    chars != "" && (chars[0] in s || ContainsAny(s, chars[1..]))
  }

  predicate OnlyOf(s: string, chars: string) {
    s == "" || (s[0] in chars && OnlyOf(s[1..], chars))
  }

  predicate StartsWithAny(s: string, prefixes: seq<string>) {
    prefixes != [] && (prefixes[0] <= s || StartsWithAny(s, prefixes[1..]))
  }

  predicate IsTableSeparator(line: string) {
    var t := Trim(line);
    ContainsAny(line, RULES) || (t != "" && OnlyOf(t, "-+| ") && ('-' in t || '|' in t))
  }

  predicate IsNextSection(line: string) {
    StartsWithAny(Trim(line), SECTIONS)
  }

  function Lower(s: string): string {
    seq(|s|, i requires 0 <= i < |s| => if 'A' <= s[i] <= 'Z' then s[i] - 'A' + 'a' else s[i])
  }

  /** One line of findSectionStart; the title alone, or followed by a space or a colon, in any case. */
  predicate MatchesTitle(line: string, title: string) {
    var t, w := Trim(line), Trim(title);
    || Lower(t) == Lower(w)
    || (w != "" && |t| > |w| && Lower(t[..|w|]) == Lower(w) && (t[|w|] == ' ' || t[|w|] == ':'))
  }

  /** The column of a line, among its first three, that holds the first header. */
  function HeaderColumn(line: string, first: string): Option<nat> {
    IndexAmong(SplitTableRow(line), first, 0)
  }

  function IndexAmong(cols: seq<string>, first: string, c: nat): Option<nat>
    decreases 3 - c
  {
    if c >= 3 || c >= |cols| then None else if cols[c] == first then Some(c) else IndexAmong(cols, first, c + 1)
  }

  predicate IsFiller(line: string) {
    IsTableSeparator(line) || line == ""
  }

  /** A row as a map; of two equal headers the later one wins. */
  function MakeRow(headers: seq<string>, cells: seq<string>): (row: map<string, string>)
    requires |headers| <= |cells|
    ensures row.Keys == set h | h in headers
  {
    if headers == [] then map[]
    else
      var n := |headers| - 1;
      MakeRow(headers[..n], cells)[headers[n] := cells[n]]
  }

  /** The row that a line shows from a column on, if it has enough cells and the first is not empty. */
  function RowIn(line: string, column: nat, headers: seq<string>): Option<map<string, string>>
    requires headers != []
  {
    RowAmong(SplitTableRow(line), column, headers)
  }

  function RowAmong(cols: seq<string>, column: nat, headers: seq<string>): Option<map<string, string>>
    requires headers != []
  {
    if column + |headers| > |cols| then None
    else
      var row := MakeRow(headers, cols[column..]);
      if Trim(row[headers[0]]) == "" then None else Some(row)
  }

  /** The header is found in the first of the first three columns that holds it, and nowhere else. */
  lemma {:induction false} HeaderInFirstThree(cols: seq<string>, first: string, c: nat)
    requires c <= 3
    ensures match IndexAmong(cols, first, c)
      case None => forall k | c <= k < |cols| && k < 3 :: cols[k] != first
      case Some(i) => c <= i < |cols| && i < 3 && cols[i] == first && forall k | c <= k < i :: cols[k] != first
    decreases 3 - c
  {
    if c < 3 && c < |cols| && cols[c] != first {
      HeaderInFirstThree(cols, first, c + 1);
    }
  }

  // ----- Scanning, whatever the lines are made of -----

  /** How single lines are understood. */
  datatype Reader = Reader(
    isTitle: string -> bool,
    headerColumn: string -> Option<nat>,
    isFiller: string -> bool,
    isNext: string -> bool,
    row: (string, nat) -> Option<map<string, string>>)

  function SectionFrom(rd: Reader, lines: seq<string>, i: nat): Option<nat>
    decreases |lines| - i
  {
    if i >= |lines| then None else if rd.isTitle(lines[i]) then Some(i) else SectionFrom(rd, lines, i + 1)
  }

  /** The header row and its column, unless another section starts first. */
  function HeaderFrom(rd: Reader, lines: seq<string>, i: nat): Option<(nat, nat)>
    decreases |lines| - i
  {
    if i >= |lines| then None
    else if rd.headerColumn(lines[i]).Some? then Some((i, rd.headerColumn(lines[i]).value))
    else if rd.isNext(lines[i]) then None
    else HeaderFrom(rd, lines, i + 1)
  }

  function RowsFrom(rd: Reader, lines: seq<string>, i: nat, column: nat): seq<map<string, string>>
    decreases |lines| - i
  {
    if i >= |lines| then []
    else if rd.isFiller(lines[i]) then RowsFrom(rd, lines, i + 1, column)
    else if rd.isNext(lines[i]) then []
    else RowOrNone(rd, lines[i], column) + RowsFrom(rd, lines, i + 1, column)
  }

  function RowOrNone(rd: Reader, line: string, column: nat): seq<map<string, string>> {
    if rd.row(line, column).Some? then [rd.row(line, column).value] else []
  }

  /** The rows below the header of the section; none if there is no such section or no such header in it. */
  function RowsOf(rd: Reader, lines: seq<string>): seq<map<string, string>> {
    match SectionFrom(rd, lines, 0)
    case None => []
    case Some(start) =>
      match HeaderFrom(rd, lines, start)
      case None => []
      case Some((h, column)) => RowsFrom(rd, lines, h + 1, column)
  }

  function ReaderOf(title: string, headers: seq<string>): Reader
    requires headers != []
  {
    Reader(line => MatchesTitle(line, title), line => HeaderColumn(line, headers[0]), line => IsFiller(line),
      line => IsNextSection(line), (line, column: nat) => RowIn(line, column, headers))
  }

  method FindSectionStart(rd: Reader, lines: seq<string>) returns (start: Option<nat>)
    ensures start == SectionFrom(rd, lines, 0)
    ensures start.Some? ==> start.value < |lines|
  {
    for i := 0 to |lines|
      invariant SectionFrom(rd, lines, 0) == SectionFrom(rd, lines, i)
    {
      if rd.isTitle(lines[i]) {
        return Some(i);
      }
    }
    return None;
  }

  method FindHeader(rd: Reader, lines: seq<string>, start: nat) returns (header: Option<(nat, nat)>)
    requires start <= |lines|
    ensures header == HeaderFrom(rd, lines, start)
  {
    for i := start to |lines|
      invariant HeaderFrom(rd, lines, start) == HeaderFrom(rd, lines, i)
    {
      if rd.headerColumn(lines[i]).Some? {
        return Some((i, rd.headerColumn(lines[i]).value));
      }
      if rd.isNext(lines[i]) {
        return None;
      }
    }
    return None;
  }

  method ReadRows(rd: Reader, lines: seq<string>, from: nat, column: nat) returns (result: seq<map<string, string>>)
    ensures result == RowsFrom(rd, lines, from, column)
  {
    result := [];
    var i := from;
    ghost var all := RowsFrom(rd, lines, from, column);
    ghost var ahead := all;
    while i < |lines|
      invariant ahead == RowsFrom(rd, lines, i, column) && all == result + ahead
      decreases |lines| - i
    {
      var line := lines[i];
      ghost var next := RowsFrom(rd, lines, i + 1, column);
      if !rd.isFiller(line) {
        if rd.isNext(line) {
          return;
        }
        assert ahead == RowOrNone(rd, line, column) + next;
        if rd.row(line, column).Some? {
          result := result + [rd.row(line, column).value];
        }
      }
      ahead := next;
      i := i + 1;
    }
  }

  method ReadSection(rd: Reader, lines: seq<string>) returns (result: seq<map<string, string>>)
    ensures result == RowsOf(rd, lines)
  {
    var start := FindSectionStart(rd, lines);
    if start.None? {
      return [];
    }
    var header := FindHeader(rd, lines, start.value);
    if header.None? {
      return [];
    }
    result := ReadRows(rd, lines, header.value.0 + 1, header.value.1);
  }

  /** parseTable */
  method ParseTable(lines: seq<string>, title: string, headers: seq<string>) returns (result: seq<map<string, string>>)
    ensures result == if headers == [] then [] else RowsOf(ReaderOf(title, headers), lines)
  {
    if headers == [] {
      return [];
    }
    result := ReadSection(ReaderOf(title, headers), lines);
  }

  /** The rows of some lines, fillers skipped. */
  function Collect(rd: Reader, lines: seq<string>, column: nat): seq<map<string, string>> {
    if lines == [] then []
    else (if rd.isFiller(lines[0]) then [] else RowOrNone(rd, lines[0], column)) + Collect(rd, lines[1..], column)
  }

  lemma {:induction false} TitleFound(rd: Reader, lines: seq<string>, i: nat, start: nat)
    requires i <= start < |lines| && rd.isTitle(lines[start])
    requires forall k | i <= k < start :: !rd.isTitle(lines[k])
    ensures SectionFrom(rd, lines, i) == Some(start)
    decreases start - i
  {
    if i < start {
      TitleFound(rd, lines, i + 1, start);
    }
  }

  lemma {:induction false} HeaderFound(rd: Reader, lines: seq<string>, i: nat, h: nat)
    requires i <= h < |lines| && rd.headerColumn(lines[h]).Some?
    requires forall k | i <= k < h :: rd.headerColumn(lines[k]).None? && !rd.isNext(lines[k])
    ensures HeaderFrom(rd, lines, i) == Some((h, rd.headerColumn(lines[h]).value))
    decreases h - i
  {
    if i < h {
      HeaderFound(rd, lines, i + 1, h);
    }
  }

  lemma {:induction false} HeaderLost(rd: Reader, lines: seq<string>, i: nat, k: nat)
    requires i <= k < |lines| && rd.isNext(lines[k])
    requires forall j | i <= j <= k :: rd.headerColumn(lines[j]).None?
    ensures HeaderFrom(rd, lines, i).None?
    decreases k - i
  {
    if i < k {
      HeaderLost(rd, lines, i + 1, k);
    }
  }

  lemma {:induction false} BodyRead(rd: Reader, lines: seq<string>, i: nat, end: nat, column: nat)
    requires i <= end <= |lines|
    requires forall k | i <= k < end :: rd.isFiller(lines[k]) || !rd.isNext(lines[k])
    requires end == |lines| || (!rd.isFiller(lines[end]) && rd.isNext(lines[end]))
    ensures RowsFrom(rd, lines, i, column) == Collect(rd, lines[i..end], column)
    decreases end - i
  {
    if i < end {
      BodyRead(rd, lines, i + 1, end, column);
      assert lines[i..end][1..] == lines[i + 1..end];
    } else {
      assert lines[i..end] == [];
    }
  }

  /** The heading is the first line that matches, and no line from it to just before line h shows the first header. */
  ghost predicate TitledAbove(rd: Reader, lines: seq<string>, start: nat, h: nat) {
    && start <= h < |lines|
    && rd.isTitle(lines[start]) && (forall k | 0 <= k < start :: !rd.isTitle(lines[k]))
    && (forall k | start <= k < h :: rd.headerColumn(lines[k]).None?)
  }

  /** Nor does any of them start a section. */
  ghost predicate HeadedBy(rd: Reader, lines: seq<string>, start: nat, h: nat) {
    TitledAbove(rd, lines, start, h) && forall k | start <= k < h :: !rd.isNext(lines[k])
  }

  /** The section ends at the end of the input or where another one starts. */
  ghost predicate EndsAt(rd: Reader, lines: seq<string>, end: nat) {
    end <= |lines| && (end == |lines| || (!rd.isFiller(lines[end]) && rd.isNext(lines[end])))
  }

  lemma HeadingRead(rd: Reader, lines: seq<string>, start: nat, h: nat)
    requires HeadedBy(rd, lines, start, h) && rd.headerColumn(lines[h]).Some?
    ensures SectionFrom(rd, lines, 0) == Some(start)
    ensures HeaderFrom(rd, lines, start) == Some((h, rd.headerColumn(lines[h]).value))
  {
    TitleFound(rd, lines, 0, start);
    HeaderFound(rd, lines, start, h);
  }

  lemma SliceRead(rd: Reader, lines: seq<string>, i: nat, end: nat, body: seq<string>, column: nat)
    requires i <= end && EndsAt(rd, lines, end) && lines[i..end] == body
    requires forall k | 0 <= k < |body| :: rd.isFiller(body[k]) || !rd.isNext(body[k])
    ensures RowsFrom(rd, lines, i, column) == Collect(rd, body, column)
  {
    forall k | i <= k < end ensures rd.isFiller(lines[k]) || !rd.isNext(lines[k]) {
      assert lines[k] == body[k - i];
    }
    BodyRead(rd, lines, i, end, column);
  }

  lemma RowsBelow(rd: Reader, lines: seq<string>, start: nat, h: nat, column: nat)
    requires SectionFrom(rd, lines, 0) == Some(start) && HeaderFrom(rd, lines, start) == Some((h, column))
    ensures RowsOf(rd, lines) == RowsFrom(rd, lines, h + 1, column)
  {
  }

  /** A well-delimited section is read as the rows of its body. */
  lemma SectionRead(rd: Reader, lines: seq<string>, start: nat, h: nat, end: nat, body: seq<string>, column: nat)
    requires HeadedBy(rd, lines, start, h) && rd.headerColumn(lines[h]) == Some(column)
    requires h < end && EndsAt(rd, lines, end) && lines[h + 1..end] == body
    requires forall k | 0 <= k < |body| :: rd.isFiller(body[k]) || !rd.isNext(body[k])
    ensures RowsOf(rd, lines) == Collect(rd, body, column)
  {
    assert RowsFrom(rd, lines, h + 1, column) == Collect(rd, body, column) by {
      SliceRead(rd, lines, h + 1, end, body, column);
    }
    assert RowsOf(rd, lines) == RowsFrom(rd, lines, h + 1, column) by {
      HeadingRead(rd, lines, start, h);
      RowsBelow(rd, lines, start, h, column);
    }
  }

  // ----- Rendering -----

  /** The CLI draws its bars in Unicode on a terminal, and in ASCII elsewhere. */
  predicate IsBar(c: char) {
    c == BAR || c == '|'
  }

  function Cells(bar: char, padded: seq<string>): string {
    if padded == [] then "" else padded[0] + ([bar] + Cells(bar, padded[1..]))
  }

  /** A row between bars; cells may be padded with white space. */
  function Render(bar: char, padded: seq<string>): string {
    [bar] + Cells(bar, padded)
  }

  /** No character of the cells is a bar or part of a rule; a '|' in a cell is fine between Unicode bars. */
  predicate Clean(bar: char, padded: seq<string>) {
    forall i | 0 <= i < |padded| :: bar !in padded[i] && BAR !in padded[i] && !ContainsAny(padded[i], RULES)
  }

  /** Between ASCII bars a row must show something that is no part of an ASCII rule. */
  predicate Shows(bar: char, padded: seq<string>) {
    bar == '|' ==> exists i, j :: 0 <= i < |padded| && 0 <= j < |padded[i]| && padded[i][j] !in "-+| "
  }

  lemma {:induction false} SplitAtSeparator(p: string, rest: string, sep: char)
    requires sep !in p
    ensures Split(p + ([sep] + rest), sep) == [p] + Split(rest, sep)
  {
    var s := p + ([sep] + rest);
    if p == "" {
      assert s == [sep] + rest && s[1..] == rest;
    } else {
      assert s[1..] == p[1..] + ([sep] + rest);
      SplitAtSeparator(p[1..], rest, sep);
      assert [p[0]] + p[1..] == p;
    }
  }

  lemma {:induction false} SplitCells(bar: char, padded: seq<string>)
    requires forall i | 0 <= i < |padded| :: bar !in padded[i]
    ensures Split(Cells(bar, padded), bar) == padded + [""]
  {
    if padded != [] {
      SplitAtSeparator(padded[0], Cells(bar, padded[1..]), bar);
      SplitCells(bar, padded[1..]);
      assert [padded[0]] + (padded[1..] + [""]) == padded + [""];
    }
  }

  /** Splitting a rendered row gives its cells, trimmed, with an empty column on either side. */
  lemma SplitOfRender(bar: char, padded: seq<string>)
    requires IsBar(bar) && Clean(bar, padded)
    ensures SplitTableRow(Render(bar, padded)) == [""] + TrimAll(padded) + [""]
  {
    var line := Render(bar, padded);
    assert line[0] == bar && line[1..] == Cells(bar, padded);
    if bar != BAR {
      CellsAvoid(bar, padded, BAR);
    }
    SplitCells(bar, padded);
    assert Split(line, bar) == [""] + (padded + [""]);
    TrimOfTrimmed("");
  }

  lemma {:induction false} CellsEndInBar(bar: char, padded: seq<string>)
    requires padded != []
    ensures Cells(bar, padded) != "" && Cells(bar, padded)[|Cells(bar, padded)| - 1] == bar
  {
    if |padded| > 1 {
      CellsEndInBar(bar, padded[1..]);
    } else {
      assert padded[1..] == [];
    }
  }

  lemma {:induction false} CellsAvoid(bar: char, padded: seq<string>, c: char)
    requires c != bar && forall i | 0 <= i < |padded| :: c !in padded[i]
    ensures c !in Cells(bar, padded)
  {
    if padded != [] {
      CellsAvoid(bar, padded[1..], c);
    }
  }

  lemma {:induction false} CellsShow(bar: char, padded: seq<string>, i: nat, c: char)
    requires i < |padded| && c in padded[i]
    ensures c in Cells(bar, padded)
  {
    if i > 0 {
      CellsShow(bar, padded[1..], i - 1, c);
    }
  }

  lemma {:induction false} RowAvoids(bar: char, padded: seq<string>, chars: string)
    requires bar !in chars && forall i | 0 <= i < |padded| :: !ContainsAny(padded[i], chars)
    ensures !ContainsAny(Render(bar, padded), chars)
  {
    if chars != "" {
      CellsAvoid(bar, padded, chars[0]);
      RowAvoids(bar, padded, chars[1..]);
    }
  }

  lemma {:induction false} NoSuchPrefix(s: string, prefixes: seq<string>)
    requires s != "" && forall i | 0 <= i < |prefixes| :: prefixes[i] != "" && prefixes[i][0] != s[0]
    ensures !StartsWithAny(s, prefixes)
  {
    if prefixes != [] {
      NoSuchPrefix(s, prefixes[1..]);
    }
  }

  lemma {:induction false} OnlyOfMeans(s: string, chars: string)
    ensures OnlyOf(s, chars) <==> forall i | 0 <= i < |s| :: s[i] in chars
  {
    if s != "" {
      OnlyOfMeans(s[1..], chars);
      assert forall i | 0 < i < |s| :: s[i] == s[1..][i - 1];
    }
  }

  /** So a rendered row is no ASCII rule. */
  lemma RowIsNoAsciiRule(bar: char, padded: seq<string>)
    requires IsBar(bar) && Shows(bar, padded)
    ensures !OnlyOf(Render(bar, padded), "-+| ")
  {
    var line := Render(bar, padded);
    OnlyOfMeans(line, "-+| ");
    if bar == '|' {
      var i, j :| 0 <= i < |padded| && 0 <= j < |padded[i]| && padded[i][j] !in "-+| ";
      CellsShow(bar, padded, i, padded[i][j]);
      assert padded[i][j] in line;
    } else {
      assert line[0] !in "-+| ";
    }
  }

  /** A rendered row is not mistaken for a rule, a blank line or a heading. */
  lemma RenderedRowIsARow(bar: char, padded: seq<string>)
    requires padded != [] && IsBar(bar) && Clean(bar, padded) && Shows(bar, padded)
    ensures !IsFiller(Render(bar, padded)) && !IsNextSection(Render(bar, padded))
  {
    var line := Render(bar, padded);
    CellsEndInBar(bar, padded);
    assert line[0] == bar && line[|line| - 1] == bar;
    TrimOfTrimmed(line);
    RowAvoids(bar, padded, RULES);
    RowIsNoAsciiRule(bar, padded);
    NoSuchPrefix(line, SECTIONS);
  }

  lemma DashShows(c: char, padded: seq<string>)
    requires exists i :: 0 <= i < |padded| && padded[i] != ""
    requires forall i | 0 <= i < |padded| :: OnlyOf(padded[i], "-")
    ensures '-' in Cells(c, padded)
  {
    var i :| 0 <= i < |padded| && padded[i] != "";
    OnlyOfMeans(padded[i], "-");
    assert padded[i][0] == '-';
    CellsShow(c, padded, i, '-');
  }

  lemma AsciiRule(line: string)
    requires line != "" && !IsSpace(line[0]) && !IsSpace(line[|line| - 1]) && OnlyOf(line, "-+| ")
    requires '-' in line || '|' in line
    ensures IsFiller(line)
  {
    TrimOfTrimmed(line);
  }

  /** Rows of dashes between '+' or '|' are rules. */
  lemma DashedRowIsARule(c: char, padded: seq<string>)
    requires c == '+' || c == '|'
    requires padded != [] && (forall i | 0 <= i < |padded| :: OnlyOf(padded[i], "-"))
    requires c == '|' || exists i :: 0 <= i < |padded| && padded[i] != ""
    ensures IsFiller(Render(c, padded))
  {
    var line := Render(c, padded);
    CellsEndInBar(c, padded);
    assert line[0] == c && line[|line| - 1] == c;
    assert OnlyOf(line, "-+| ") by {
      DashesAndBars(c, padded);
      OnlyOfMeans(line, "-+| ");
    }
    if c == '+' {
      DashShows(c, padded);
    }
    AsciiRule(line);
  }

  lemma {:induction false} DashesAndBars(c: char, padded: seq<string>)
    requires forall i | 0 <= i < |padded| :: OnlyOf(padded[i], "-")
    ensures forall i | 0 <= i < |Cells(c, padded)| :: Cells(c, padded)[i] == '-' || Cells(c, padded)[i] == c
  {
    if padded != [] {
      OnlyOfMeans(padded[0], "-");
      DashesAndBars(c, padded[1..]);
    }
  }

  // ----- Titles and headings -----

  /** A title is found alone or followed by a space or a colon, in any case; never as the beginning of another word. */
  lemma TitleForms(w: string, rest: string, title: string)
    requires Trimmed(title) && title != "" && Lower(w) == Lower(title) && Trimmed(w + rest)
    ensures MatchesTitle(w + rest, title) <==> rest == "" || rest[0] == ' ' || rest[0] == ':'
  {
    var t := w + rest;
    TrimOfTrimmed(t);
    TrimOfTrimmed(title);
    assert |Lower(w)| == |w| && |Lower(title)| == |title| && |Lower(t)| == |t|;
    assert t[..|title|] == w;
    if rest == "" {
      assert t == w;
    }
  }

  lemma {:induction false} ListedPrefix(s: string, prefixes: seq<string>, i: nat)
    requires i < |prefixes| && prefixes[i] <= s
    ensures StartsWithAny(s, prefixes)
  {
    if i > 0 {
      ListedPrefix(s, prefixes[1..], i - 1);
    }
  }

  /** Every listed heading starts a section, whatever follows it on its line. */
  lemma ListedHeadingsStartSections(i: nat, rest: string)
    requires i < |SECTIONS| && Trimmed(SECTIONS[i] + rest)
    ensures IsNextSection(SECTIONS[i] + rest)
  {
    TrimOfTrimmed(SECTIONS[i] + rest);
    ListedPrefix(SECTIONS[i] + rest, SECTIONS, i);
  }

  // ----- Round trip -----

  /** A line of a table body: a rule or a blank line, or a row rendered with either bar. */
  datatype Line = Filler(text: string) | Row(bar: char, padded: seq<string>) {
    function Text(): string {
      if Filler? then text else Render(bar, padded)
    }

    predicate WellFormed(width: nat) {
      if Filler? then IsFiller(text) else |padded| == width && IsBar(bar) && Clean(bar, padded) && Shows(bar, padded)
    }
  }

  /** The rows that a body stands for: those whose first cell is not empty. */
  function Meaning(headers: seq<string>, body: seq<Line>): seq<map<string, string>>
    requires headers != [] && forall i | 0 <= i < |body| :: body[i].WellFormed(|headers|)
  {
    if body == [] then []
    else
      assert body[0].WellFormed(|headers|);
      if body[0].Filler? || Trim(MakeRow(headers, TrimAll(body[0].padded))[headers[0]]) == "" then Meaning(headers, body[1..])
      else [MakeRow(headers, TrimAll(body[0].padded))] + Meaning(headers, body[1..])
  }

  lemma {:induction false} MakeRowOfPrefix(headers: seq<string>, a: seq<string>, b: seq<string>)
    requires |headers| <= |a| && a <= b
    ensures MakeRow(headers, a) == MakeRow(headers, b)
  {
    if headers != [] {
      MakeRowOfPrefix(headers[..|headers| - 1], a, b);
    }
  }

  /** With distinct headers, each header leads to the cell in its own column. */
  lemma {:induction false} RowHoldsCells(headers: seq<string>, cells: seq<string>, j: nat)
    requires |headers| <= |cells| && j < |headers|
    requires forall a, b | 0 <= a < b < |headers| :: headers[a] != headers[b]
    ensures MakeRow(headers, cells)[headers[j]] == cells[j]
  {
    var n := |headers| - 1;
    if j < n {
      RowHoldsCells(headers[..n], cells, j);
    }
  }

  lemma RowBetweenBars(headers: seq<string>, cells: seq<string>)
    requires headers != [] && |cells| == |headers|
    ensures RowAmong([""] + cells + [""], 1, headers) ==
      var row := MakeRow(headers, cells); if Trim(row[headers[0]]) == "" then None else Some(row)
  {
    var cols := [""] + cells + [""];
    assert cols[1..] == cells + [""];
    MakeRowOfPrefix(headers, cells, cols[1..]);
  }

  lemma RowOfRender(headers: seq<string>, bar: char, padded: seq<string>)
    requires headers != [] && |padded| == |headers| && IsBar(bar) && Clean(bar, padded)
    ensures RowIn(Render(bar, padded), 1, headers) ==
      var row := MakeRow(headers, TrimAll(padded)); if Trim(row[headers[0]]) == "" then None else Some(row)
  {
    SplitOfRender(bar, padded);
    RowBetweenBars(headers, TrimAll(padded));
  }

  function Texts(body: seq<Line>): seq<string> {
    seq(|body|, i requires 0 <= i < |body| => body[i].Text())
  }

  lemma {:induction false} CollectedIsMeant(title: string, headers: seq<string>, body: seq<Line>)
    requires headers != [] && forall i | 0 <= i < |body| :: body[i].WellFormed(|headers|)
    ensures Collect(ReaderOf(title, headers), Texts(body), 1) == Meaning(headers, body)
  {
    if body != [] {
      var rd := ReaderOf(title, headers);
      var line := body[0];
      assert line.WellFormed(|headers|);
      assert Texts(body)[0] == line.Text() && Texts(body)[1..] == Texts(body[1..]);
      CollectedIsMeant(title, headers, body[1..]);
      if line.Row? {
        RenderedRowIsARow(line.bar, line.padded);
        RowOfRender(headers, line.bar, line.padded);
        assert rd.row(line.Text(), 1) == RowIn(line.Text(), 1, headers);
      }
    }
  }

  lemma HeaderOfRender(title: string, bar: char, paddedHeaders: seq<string>, headers: seq<string>)
    requires headers != [] && headers[0] != "" && TrimAll(paddedHeaders) == headers
    requires IsBar(bar) && Clean(bar, paddedHeaders)
    ensures ReaderOf(title, headers).headerColumn(Render(bar, paddedHeaders)) == Some(1)
  {
    SplitOfRender(bar, paddedHeaders);
    assert HeaderColumn(Render(bar, paddedHeaders), headers[0]) == Some(1);
  }

  lemma BodyLinesAreNoHeadings(title: string, headers: seq<string>, body: seq<Line>, rd: Reader, texts: seq<string>)
    requires headers != [] && rd == ReaderOf(title, headers) && texts == Texts(body)
    requires forall k | 0 <= k < |body| :: body[k].WellFormed(|headers|)
    ensures forall k | 0 <= k < |texts| :: rd.isFiller(texts[k]) || !rd.isNext(texts[k])
  {
    forall k | 0 <= k < |texts| ensures rd.isFiller(texts[k]) || !rd.isNext(texts[k]) {
      var line := body[k];
      assert line.WellFormed(|headers|) && texts[k] == line.Text();
      if line.Row? {
        RenderedRowIsARow(line.bar, line.padded);
      }
    }
  }

  /**
   Round trip.  Take a section whose heading is the first line to match the title, whose lines down to the
   header row start no other section and do not show the first header, and whose body of rendered rows,
   rules and blank lines ends the input or is followed by another section.  Then what is read is what the
   rows mean, in order: exactly those with a first cell.
   */
  lemma RoundTrip(lines: seq<string>, title: string, headers: seq<string>, start: nat, h: nat, end: nat,
                  bar: char, paddedHeaders: seq<string>, body: seq<Line>)
    requires headers != [] && headers[0] != "" && TrimAll(paddedHeaders) == headers
    requires IsBar(bar) && Clean(bar, paddedHeaders)
    requires forall k | 0 <= k < |body| :: body[k].WellFormed(|headers|)
    requires HeadedBy(ReaderOf(title, headers), lines, start, h) && lines[h] == Render(bar, paddedHeaders)
    requires h < end && EndsAt(ReaderOf(title, headers), lines, end) && lines[h + 1..end] == Texts(body)
    ensures RowsOf(ReaderOf(title, headers), lines) == Meaning(headers, body)
  {
    var rd, texts := ReaderOf(title, headers), Texts(body);
    assert RowsOf(rd, lines) == Collect(rd, texts, 1) by {
      assert rd.headerColumn(lines[h]) == Some(1) by {
        HeaderOfRender(title, bar, paddedHeaders, headers);
      }
      BodyLinesAreNoHeadings(title, headers, body, rd, texts);
      SectionRead(rd, lines, start, h, end, texts, 1);
    }
    CollectedIsMeant(title, headers, body);
  }

  lemma {:induction false} RowsFromAreNamed(rd: Reader, title: string, headers: seq<string>, lines: seq<string>, i: nat, column: nat)
    requires headers != [] && rd == ReaderOf(title, headers)
    ensures forall row | row in RowsFrom(rd, lines, i, column) :: headers[0] in row && Trim(row[headers[0]]) != ""
    decreases |lines| - i
  {
    if i < |lines| {
      RowsFromAreNamed(rd, title, headers, lines, i + 1, column);
      assert rd.row(lines[i], column) == RowIn(lines[i], column, headers);
    }
  }

  /** Whatever the input, every row read has all the headers, and something in its first cell. */
  lemma RowsAreNamed(title: string, headers: seq<string>, lines: seq<string>)
    requires headers != []
    ensures forall row | row in RowsOf(ReaderOf(title, headers), lines) :: headers[0] in row && Trim(row[headers[0]]) != ""
  {
    var rd := ReaderOf(title, headers);
    var start := SectionFrom(rd, lines, 0);
    if start.Some? {
      var header := HeaderFrom(rd, lines, start.value);
      if header.Some? {
        RowsBelow(rd, lines, start.value, header.value.0, header.value.1);
        RowsFromAreNamed(rd, title, headers, lines, header.value.0 + 1, header.value.1);
      }
    }
  }

  /** A rendered row with something in its first cell. */
  predicate Filled(headers: seq<string>, line: Line) {
    && headers != [] && line.Row? && line.WellFormed(|headers|)
    && Trim(MakeRow(headers, TrimAll(line.padded))[headers[0]]) != ""
  }

  lemma MeaningOfFilled(headers: seq<string>, line: Line, rest: seq<Line>)
    requires Filled(headers, line) && forall i | 0 <= i < |rest| :: rest[i].WellFormed(|headers|)
    ensures Meaning(headers, [line] + rest) == [MakeRow(headers, TrimAll(line.padded))] + Meaning(headers, rest)
  {
    assert ([line] + rest)[1..] == rest;
  }

  /** A body of filled rows means all of them, in order, each with its trimmed cells under its headers. */
  lemma {:induction false} FilledRowsAreAllMeant(headers: seq<string>, rows: seq<Line>, k: nat)
    requires headers != [] && k < |rows| && forall i | 0 <= i < |rows| :: Filled(headers, rows[i]) && rows[i].WellFormed(|headers|)
    ensures |Meaning(headers, rows)| == |rows| && Filled(headers, rows[k])
    ensures Meaning(headers, rows)[k] == MakeRow(headers, TrimAll(rows[k].padded))
  {
    var rest := rows[1..];
    assert rows == [rows[0]] + rest;
    MeaningOfFilled(headers, rows[0], rest);
    if rest != [] {
      FilledRowsAreAllMeant(headers, rest, if k == 0 then 0 else k - 1);
    }
  }

  /** A line that starts a section, anywhere from the heading to just before the header row, loses the whole table. */
  lemma SectionStartLosesTheTable(lines: seq<string>, title: string, headers: seq<string>, start: nat, k: nat)
    requires headers != [] && start <= k < |lines|
    requires MatchesTitle(lines[start], title) && forall j | 0 <= j < start :: !MatchesTitle(lines[j], title)
    requires forall j | start <= j <= k :: HeaderColumn(lines[j], headers[0]).None?
    requires IsNextSection(lines[k])
    ensures RowsOf(ReaderOf(title, headers), lines) == []
  {
    TitleFound(ReaderOf(title, headers), lines, 0, start);
    HeaderLost(ReaderOf(title, headers), lines, start, k);
  }

  /** The lines from the heading to just before the header row start no section. */
  ghost predicate NoSectionStarts(lines: seq<string>, start: nat, h: nat)
    requires h <= |lines|
  {
    forall k | start <= k < h :: !IsNextSection(lines[k])
  }

  /**
   The round trip holds exactly when there are no rows to lose, or no line from the heading to just before the
   header row starts a section.
   */
  lemma RoundTripExactly(lines: seq<string>, title: string, headers: seq<string>, start: nat, h: nat, end: nat,
                         bar: char, paddedHeaders: seq<string>, body: seq<Line>)
    requires headers != [] && headers[0] != "" && TrimAll(paddedHeaders) == headers
    requires IsBar(bar) && Clean(bar, paddedHeaders)
    requires forall k | 0 <= k < |body| :: body[k].WellFormed(|headers|)
    requires TitledAbove(ReaderOf(title, headers), lines, start, h) && lines[h] == Render(bar, paddedHeaders)
    requires h < end && EndsAt(ReaderOf(title, headers), lines, end) && lines[h + 1..end] == Texts(body)
    ensures RowsOf(ReaderOf(title, headers), lines) == Meaning(headers, body)
       <==> Meaning(headers, body) == [] || NoSectionStarts(lines, start, h)
  {
    if NoSectionStarts(lines, start, h) {
      RoundTrip(lines, title, headers, start, h, end, bar, paddedHeaders, body);
    } else {
      var k :| start <= k < h && IsNextSection(lines[k]);
      SectionStartLosesTheTable(lines, title, headers, start, k);
    }
  }

  /** The heading itself is such a line if it is on the section list. */
  lemma HeadingEndsItsOwnSection(lines: seq<string>, title: string, headers: seq<string>, start: nat)
    requires headers != [] && start < |lines|
    requires MatchesTitle(lines[start], title) && forall k | 0 <= k < start :: !MatchesTitle(lines[k], title)
    requires IsNextSection(lines[start]) && HeaderColumn(lines[start], headers[0]).None?
    ensures RowsOf(ReaderOf(title, headers), lines) == []
  {
    SectionStartLosesTheTable(lines, title, headers, start, start);
  }

  const CHANNEL_HEADERS := ["Channel", "Enabled", "State", "Detail"]

  /** So the table that the agent looks up under "Channels" is never read when that is how its heading is spelled. */
  lemma ChannelsTableIsLost(lines: seq<string>, start: nat)
    requires start < |lines| && lines[start] == "Channels"
    requires forall k | 0 <= k < start :: !MatchesTitle(lines[k], "Channels")
    ensures RowsOf(ReaderOf("Channels", CHANNEL_HEADERS), lines) == []
  {
    var line := lines[start];
    TrimOfTrimmed(line);
    assert StartsWithAny(Trim(line), SECTIONS);
    SplitWhole(line, BAR);
    HeadingEndsItsOwnSection(lines, "Channels", CHANNEL_HEADERS, start);
  }

  lemma {:induction false} SplitWhole(s: string, sep: char)
    requires sep !in s
    ensures Split(s, sep) == [s]
  {
    if s != "" {
      SplitWhole(s[1..], sep);
      assert [s[0]] + s[1..] == s;
    }
  }
}
