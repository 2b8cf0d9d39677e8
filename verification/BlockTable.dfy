/** Comparison tables as CSV grids: the writer of sosp-replication/plotting/extract_data.py, which writes a
    repeated protocol name only once, and the reader of sosp-replication/plotting/plot_benchmarks.py. */
module BlockTable {
  import opened Options
  import opened Bags

  type Grid = seq<seq<string>>
  datatype Block = Block(protocol: string, network: string)
  datatype Timing = Timing(competitor: Option<real>, ours: Option<real>)
  datatype Line = Line(text: string, perBlock: map<Block, Timing>)

  /** What the reader returns for one block. */
  datatype Columns = Columns(query: seq<string>, competitor: seq<Option<real>>, us: seq<Option<real>>,
                             speedup: seq<Option<real>>)

  /** Number formatting and parsing: "%.6g", "%.2f" and float(). */
  datatype Numerals = Numerals(six: real -> string, two: real -> string, parse: string -> Option<real>)

  // ----- Text -----

  predicate IsSpace(c: char) { c == ' ' || c == '\t' || c == '\n' || c == '\r' }

  function StripLeft(s: string): string {
    if s != [] && IsSpace(s[0]) then StripLeft(s[1..]) else s
  }

  function StripRight(s: string): string {
    if s != [] && IsSpace(s[|s| - 1]) then StripRight(s[..|s| - 1]) else s
  }

  function Strip(s: string): string { StripRight(StripLeft(s)) }

  predicate Blank(s: string) { Strip(s) == "" }

  predicate AllBlank(row: seq<string>) { forall c :: c in row ==> Blank(c) }

  function WithoutCommas(s: string): string {
    if s == [] then [] else (if s[0] == ',' then [] else [s[0]]) + WithoutCommas(s[1..])
  }

  /** A numeral has no space around it, no comma, and is not an error cell. */
  ghost predicate Clean(s: string) {
    s != "" && Strip(s) == s && ',' !in s && s[0] != '#'
  }

  ghost predicate CleanNumerals(fmt: Numerals) {
    forall x :: Clean(fmt.six(x)) && Clean(fmt.two(x))
  }

  function Fmt(fmt: Numerals, v: Option<real>): string {
    match v case None => "" case Some(x) => fmt.six(x)
  }

  function SpeedUp(fmt: Numerals, t: Timing): string {
    if t.competitor == None || t.ours == None || t.ours == Some(0.0) then ""
    else fmt.two(t.competitor.value / t.ours.value)
  }

  function ToFloat(fmt: Numerals, s: string): Option<real> {
    var t := WithoutCommas(Strip(s));
    if t == "" || t[0] == '#' then None else fmt.parse(t)
  }

  lemma {:induction false} CommaFree(s: string)
    requires ',' !in s
    ensures WithoutCommas(s) == s
  {
    if s != [] { CommaFree(s[1..]); }
  }

  predicate NotComma(c: char) { c != ',' }

  /** All other characters stay, in order. */
  lemma {:induction false} CommasOut(s: string)
    ensures WithoutCommas(s) == Select(s, NotComma) && ',' !in WithoutCommas(s)
  {
    if s != [] {
      CommasOut(s[1..]);
      assert s == [s[0]] + s[1..];
      SelectAppend([s[0]], s[1..], NotComma);
      assert [s[0]][..0] == [];
    }
    SelectMember(s, NotComma, ',');
  }

  ghost predicate Spaces(s: string) { forall c :: c in s ==> IsSpace(c) }

  /** Stripping takes the spaces on both sides and nothing else. */
  lemma {:induction false} StripIs(before: string, s: string, after: string)
    requires Spaces(before) && Spaces(after)
    requires s != "" ==> !IsSpace(s[0]) && !IsSpace(s[|s| - 1])
    ensures Strip(before + s + after) == s
  {
    var t := before + s + after;
    if before != "" {
      assert t[0] == before[0] && before[0] in before;
      assert t[1..] == before[1..] + s + after;
      StripIs(before[1..], s, after);
    } else if s == "" {
      assert t == after;
      OnlySpaces(after);
    } else {
      assert t == s + after && t[0] == s[0];
      RightSpaces(s, after);
    }
  }

  lemma {:induction false} OnlySpaces(s: string)
    requires Spaces(s)
    ensures Strip(s) == ""
  {
    if s != "" {
      assert s[0] in s;
      OnlySpaces(s[1..]);
    }
  }

  lemma {:induction false} RightSpaces(s: string, after: string)
    requires Spaces(after) && s != "" && !IsSpace(s[|s| - 1])
    ensures StripRight(s + after) == s
  {
    if after == "" {
      assert s + after == s;
    } else {
      var n := |after| - 1;
      assert (s + after)[..|s + after| - 1] == s + after[..n] && after[n] in after;
      RightSpaces(s, after[..n]);
    }
  }

  /** The four kinds of space. */
  lemma {:induction false} SpaceKinds(c: char)
    ensures IsSpace(c) <==> c in " \t\n\r"
  {
  }

  /** A stripped text starts and ends with no space. */
  lemma {:induction false} StrippedEnds(s: string)
    requires s != "" && Strip(s) == s
    ensures !IsSpace(s[0]) && !IsSpace(s[|s| - 1])
  {
    StripShorter(s);
    StripShorter(StripLeft(s));
  }

  lemma {:induction false} StripShorter(s: string)
    ensures |StripLeft(s)| <= |s| && |StripRight(s)| <= |s|
    ensures s != "" && IsSpace(s[0]) ==> |StripLeft(s)| < |s|
    ensures s != "" && IsSpace(s[|s| - 1]) ==> |StripRight(s)| < |s|
  {
    if s != "" && IsSpace(s[0]) { StripShorter(s[1..]); }
    if s != "" && IsSpace(s[|s| - 1]) { StripShorter(s[..|s| - 1]); }
  }

  /** A numeral with commas put in at any places, and spaces around it, reads as the numeral. */
  lemma {:induction false} CommasIgnored(fmt: Numerals, s: string, t: string, before: string, after: string)
    requires Clean(s) && Select(t, NotComma) == s && Spaces(before) && Spaces(after)
    ensures ToFloat(fmt, before + t + after) == fmt.parse(s)
  {
    CommasOut(t);
    StrippedEnds(s);
    SelectEnds(t);
    StripIs(before, t, after);
  }

  /** A cell of spaces, and one that starts with a hash, is a missing value. */
  lemma {:induction false} MissingCell(fmt: Numerals, s: string, before: string)
    requires Spaces(before)
    ensures ToFloat(fmt, before) == None
    ensures s != "" && s[0] == '#' && !IsSpace(s[|s| - 1]) ==> ToFloat(fmt, before + s) == None
  {
    OnlySpaces(before);
    if s != "" && s[0] == '#' && !IsSpace(s[|s| - 1]) {
      assert before + s + "" == before + s;
      StripIs(before, s, "");
    }
  }

  /** The first and the last character are commas or stay the first and the last one. */
  lemma {:induction false} SelectEnds(t: string)
    requires Select(t, NotComma) != ""
    ensures t != "" && (t[0] != ',' ==> t[0] == Select(t, NotComma)[0])
    ensures t[|t| - 1] != ',' ==> t[|t| - 1] == Select(t, NotComma)[|Select(t, NotComma)| - 1]
  {
    assert t == [t[0]] + t[1..];
    SelectAppend([t[0]], t[1..], NotComma);
    assert [t[0]][..0] == [];
  }

  /** A clean numeral reaches the parser unchanged; a blank cell is a missing value. */
  lemma {:induction false} ReadCell(fmt: Numerals, s: string)
    ensures Clean(s) ==> ToFloat(fmt, s) == fmt.parse(s)
    ensures ToFloat(fmt, "") == None
  {
    if Clean(s) { CommaFree(s); }
  }

  // ----- The grid the writer makes -----

  function Width(blocks: seq<Block>): nat { 1 + 3 * |blocks| }

  function TimingOf(line: Line, b: Block): Timing {
    if b in line.perBlock then line.perBlock[b] else Timing(None, None)
  }

  function ProtocolCell(blocks: seq<Block>, i: nat): string
    requires i < |blocks|
  {
    if i > 0 && blocks[i - 1].protocol == blocks[i].protocol then "" else blocks[i].protocol
  }

  function ProtocolRow(blocks: seq<Block>): seq<string> {
    seq(Width(blocks), c requires 0 <= c < Width(blocks) => if c % 3 == 1 then ProtocolCell(blocks, c / 3) else "")
  }

  function NetworkRow(blocks: seq<Block>): seq<string> {
    seq(Width(blocks), c requires 0 <= c < Width(blocks) => if c % 3 == 1 then blocks[c / 3].network else "")
  }

  function ColumnRow(blocks: seq<Block>, competitor: string): seq<string> {
    seq(Width(blocks), c requires 0 <= c =>
      if c == 0 then "Query" else if c % 3 == 1 then competitor else if c % 3 == 2 then "US" else "SpeedUp")
  }

  function DataCell(fmt: Numerals, t: Timing, part: nat): string {
    if part == 0 then Fmt(fmt, t.competitor) else if part == 1 then Fmt(fmt, t.ours) else SpeedUp(fmt, t)
  }

  function DataRow(fmt: Numerals, blocks: seq<Block>, line: Line): seq<string> {
    seq(Width(blocks), c requires 0 <= c < Width(blocks) =>
      if c == 0 then line.text else DataCell(fmt, TimingOf(line, blocks[(c - 1) / 3]), (c - 1) % 3))
  }

  function TitleRows(blocks: seq<Block>, title: Option<string>): Grid {
    match title
    case None => []
    case Some(t) => [seq(Width(blocks), c => if c == 0 then t else "")]
  }

  function DataRows(fmt: Numerals, blocks: seq<Block>, lines: seq<Line>): Grid {
    seq(|lines|, i requires 0 <= i < |lines| => DataRow(fmt, blocks, lines[i]))
  }

  /** The rows below the title. */
  function Body(fmt: Numerals, competitor: string, blocks: seq<Block>, lines: seq<Line>): Grid {
    [ProtocolRow(blocks), NetworkRow(blocks), ColumnRow(blocks, competitor)] + DataRows(fmt, blocks, lines)
  }

  function GridOf(fmt: Numerals, competitor: string, blocks: seq<Block>, lines: seq<Line>,
                  title: Option<string>): Grid
  {
    TitleRows(blocks, title) + Body(fmt, competitor, blocks, lines)
  }

  /** What a number prints as. */
  ghost predicate Shows(cell: string, format: real -> string, v: Option<real>) {
    cell == match v case None => "" case Some(x) => format(x)
  }

  /** The competitor's time over ours, where both are there and ours is not zero. */
  ghost function RatioOf(t: Timing): Option<real> {
    match (t.competitor, t.ours)
    case (Some(c), Some(o)) => if o == 0.0 then None else Some(c / o)
    case _ => None
  }

  /** The cells of a line, block by block: competitor, ours, ratio; empty for a block without a timing. */
  lemma {:induction false} WrittenLine(fmt: Numerals, competitor: string, blocks: seq<Block>, lines: seq<Line>,
                                       title: Option<string>, j: nat, i: nat)
    requires j < |lines| && i < |blocks|
    ensures var top := if title.Some? then 4 else 3;
            var grid := GridOf(fmt, competitor, blocks, lines, title);
            && |grid| == top + |lines| && |grid[top + j]| == 3 * |blocks| + 1 && grid[top + j][0] == lines[j].text
            && (blocks[i] in lines[j].perBlock ==>
                  var t := lines[j].perBlock[blocks[i]];
                  && Shows(grid[top + j][3 * i + 1], fmt.six, t.competitor)
                  && Shows(grid[top + j][3 * i + 2], fmt.six, t.ours)
                  && Shows(grid[top + j][3 * i + 3], fmt.two, RatioOf(t)))
            && (blocks[i] !in lines[j].perBlock ==>
                  grid[top + j][3 * i + 1] == grid[top + j][3 * i + 2] == grid[top + j][3 * i + 3] == "")
  {
    var top := if title.Some? then 4 else 3;
    var grid := GridOf(fmt, competitor, blocks, lines, title);
    assert grid[top + j] == DataRow(fmt, blocks, lines[j]);
    BlockCells(fmt, blocks, lines[j], i);
  }

  /** The header: a title alone in its row, each protocol where it changes, the networks, and the column names. */
  lemma {:induction false} WrittenHeader(fmt: Numerals, competitor: string, blocks: seq<Block>, lines: seq<Line>,
                                         title: Option<string>, i: nat)
    requires i < |blocks|
    ensures var top := if title.Some? then 1 else 0;
            var grid := GridOf(fmt, competitor, blocks, lines, title);
            && (title.Some? ==> grid[0][0] == title.value && forall c :: 1 <= c < |grid[0]| ==> grid[0][c] == "")
            && grid[top][0] == grid[top + 1][0] == "" && grid[top + 2][0] == "Query"
            && grid[top][3 * i + 1] ==
                 (if i > 0 && blocks[i].protocol == blocks[i - 1].protocol then "" else blocks[i].protocol)
            && grid[top + 1][3 * i + 1] == blocks[i].network
            && grid[top + 2][3 * i + 1] == competitor && grid[top + 2][3 * i + 2] == "US"
            && grid[top + 2][3 * i + 3] == "SpeedUp"
            && grid[top][3 * i + 2] == grid[top][3 * i + 3] == ""
            && grid[top + 1][3 * i + 2] == grid[top + 1][3 * i + 3] == ""
  {
    Thirds(i);
    assert (3 * i + 3) / 3 == i + 1 && (3 * i + 3) % 3 == 0;
    var top := if title.Some? then 1 else 0;
    var grid := GridOf(fmt, competitor, blocks, lines, title);
    assert title.Some? ==> grid[0] == TitleRows(blocks, title)[0];
    assert grid[top] == ProtocolRow(blocks) && grid[top + 1] == NetworkRow(blocks);
    assert grid[top + 2] == ColumnRow(blocks, competitor);
  }

  /** The protocol header with its carried last_protocol. */
  method WriteProtocols(blocks: seq<Block>) returns (row: seq<string>)
    ensures row == ProtocolRow(blocks)
  {
    row := seq(Width(blocks), _ => "");
    var last: Option<string> := None;
    for i := 0 to |blocks|
      invariant |row| == Width(blocks) && last == if i == 0 then None else Some(blocks[i - 1].protocol)
      invariant forall c :: 0 <= c < |row| ==>
        row[c] == if c < 3 * i && c % 3 == 1 then ProtocolCell(blocks, c / 3) else ""
    {
      if Some(blocks[i].protocol) != last {
        row := row[1 + 3 * i := blocks[i].protocol];
        last := Some(blocks[i].protocol);
      }
    }
  }

  method WriteNetworks(blocks: seq<Block>) returns (row: seq<string>)
    ensures row == NetworkRow(blocks)
  {
    row := seq(Width(blocks), _ => "");
    for i := 0 to |blocks|
      invariant |row| == Width(blocks)
      invariant forall c :: 0 <= c < |row| ==> row[c] == if c < 3 * i && c % 3 == 1 then blocks[c / 3].network else ""
    {
      row := row[1 + 3 * i := blocks[i].network];
    }
  }

  method WriteColumns(blocks: seq<Block>, competitor: string) returns (row: seq<string>)
    ensures row == ColumnRow(blocks, competitor)
  {
    row := seq(Width(blocks), _ => "");
    row := row[0 := "Query"];
    for i := 0 to |blocks|
      invariant |row| == Width(blocks) && row[0] == "Query"
      invariant forall c :: 1 <= c < 1 + 3 * i ==> row[c] == ColumnRow(blocks, competitor)[c]
    {
      row := row[1 + 3 * i := competitor];
      row := row[2 + 3 * i := "US"];
      row := row[3 + 3 * i := "SpeedUp"];
    }
  }

  method WriteLine(fmt: Numerals, blocks: seq<Block>, line: Line) returns (row: seq<string>)
    ensures row == DataRow(fmt, blocks, line)
  {
    row := seq(Width(blocks), _ => "");
    row := row[0 := line.text];
    for i := 0 to |blocks|
      invariant |row| == Width(blocks) && row[0] == line.text
      invariant forall c :: 1 <= c < 1 + 3 * i ==> row[c] == DataRow(fmt, blocks, line)[c]
    {
      var t := TimingOf(line, blocks[i]);
      row := row[1 + 3 * i := Fmt(fmt, t.competitor)];
      row := row[2 + 3 * i := Fmt(fmt, t.ours)];
      row := row[3 + 3 * i := SpeedUp(fmt, t)];
      BlockCells(fmt, blocks, line, i);
    }
  }

  /** _write_block_table up to the CSV encoding. */
  method Write(fmt: Numerals, competitor: string, blocks: seq<Block>, lines: seq<Line>, title: Option<string>)
    returns (grid: Grid)
    ensures grid == GridOf(fmt, competitor, blocks, lines, title)
  {
    grid := [];
    if title.Some? {
      grid := grid + [seq(Width(blocks), c => if c == 0 then title.value else "")];
    }
    var protocols := WriteProtocols(blocks);
    var networks := WriteNetworks(blocks);
    var columns := WriteColumns(blocks, competitor);
    grid := grid + [protocols, networks, columns];
    ghost var header := grid;
    for i := 0 to |lines|
      invariant grid == header + DataRows(fmt, blocks, lines)[..i]
    {
      var row := WriteLine(fmt, blocks, lines[i]);
      grid := grid + [row];
    }
  }

  // ----- The reader -----

  function DropBlankRows(rows: Grid): Grid {
    if rows != [] && AllBlank(rows[0]) then DropBlankRows(rows[1..]) else rows
  }

  predicate IsTitle(row: seq<string>) { row == [] || AllBlank(row[1..]) }

  function DropTitle(rows: Grid): Grid {
    if rows != [] && IsTitle(rows[0]) then rows[1..] else rows
  }

  datatype Found = Found(protocol: string, network: string, start: nat)

  function Prefixed(before: seq<Found>, rest: Option<seq<Found>>): Option<seq<Found>> {
    match rest case None => None case Some(f) => Some(before + f)
  }

  lemma {:induction false} PrefixedTwice(a: seq<Found>, b: seq<Found>, rest: Option<seq<Found>>)
    ensures Prefixed(a, Prefixed(b, rest)) == Prefixed(a + b, rest)
    ensures Prefixed([], rest) == rest
  {
    if rest.Some? {
      assert a + (b + rest.value) == (a + b) + rest.value;
      assert [] + rest.value == rest.value;
    }
  }

  function StripAll(row: seq<string>): seq<string> {
    seq(|row|, c requires 0 <= c < |row| => Strip(row[c]))
  }

  /** The scan of stripped header rows from column `col` on; None where the network row is too short for the index. */
  function Scan(protocols: seq<string>, networks: seq<string>, col: nat, protocol: string,
                network: string): Option<seq<Found>>
    decreases |protocols| - col
  {
    if col >= |protocols| then Some([])
    else if col >= |networks| then None
    else
      var p := if protocols[col] != "" then protocols[col] else protocol;
      var n := if networks[col] != "" then networks[col] else network;
      var found := p != "" && n != "";
      Prefixed(if found then [Found(p, n, col)] else [], Scan(protocols, networks, col + 3, p, if found then "" else n))
  }

  predicate HasLabel(row: seq<string>) { row != [] && !Blank(row[0]) }

  function Labelled(rows: Grid): Grid {
    if rows == [] then []
    else Labelled(rows[..|rows| - 1]) + (if HasLabel(rows[|rows| - 1]) then [rows[|rows| - 1]] else [])
  }

  function CellAt(fmt: Numerals, row: seq<string>, c: nat): Option<real> {
    if c < |row| then ToFloat(fmt, row[c]) else None
  }

  function CellsAt(fmt: Numerals, rows: Grid, c: nat): seq<Option<real>> {
    seq(|rows|, i requires 0 <= i < |rows| => CellAt(fmt, rows[i], c))
  }

  function Labels(rows: Grid): seq<string> {
    seq(|rows|, i requires 0 <= i < |rows| => if rows[i] == [] then "" else Strip(rows[i][0]))
  }

  function ColumnsOf(fmt: Numerals, rows: Grid, start: nat): Columns {
    var r := Labelled(rows);
    Columns(Labels(r), CellsAt(fmt, r, start), CellsAt(fmt, r, start + 1), CellsAt(fmt, r, start + 2))
  }

  /** Blocks are entered in order: a later block of the same name replaces an earlier one. */
  function Collect(fmt: Numerals, rows: Grid, found: seq<Found>): map<Block, Columns> {
    if found == [] then map[]
    else
      var f := found[|found| - 1];
      Collect(fmt, rows, found[..|found| - 1])[Block(f.protocol, f.network) := ColumnsOf(fmt, rows, f.start)]
  }

  /** The reader as a function; None is the IndexError of a short network row. */
  function LoadSpec(fmt: Numerals, grid: Grid): Option<map<Block, Columns>> {
    var rows := DropTitle(DropBlankRows(grid));
    if |rows| < 3 then Some(map[])
    else
      var found := Scan(StripAll(rows[0]), StripAll(rows[1]), 1, "", "");
      if found == None then None else Some(Collect(fmt, rows[3..], found.value))
  }

  method ScanHeader(protocolRow: seq<string>, networkRow: seq<string>) returns (found: Option<seq<Found>>)
    ensures found == Scan(StripAll(protocolRow), StripAll(networkRow), 1, "", "")
  {
    ghost var protocols, networks := StripAll(protocolRow), StripAll(networkRow);
    var blocks, protocol, network, col := [], "", "", 1;
    PrefixedTwice([], [], Scan(protocols, networks, 1, "", ""));
    while col < |protocolRow|
      invariant col >= 1
      invariant Scan(protocols, networks, 1, "", "")
           == Prefixed(blocks, Scan(protocols, networks, col, protocol, network))
      decreases |protocolRow| - col
    {
      if col >= |networkRow| {
        return None;
      }
      var p, n := Strip(protocolRow[col]), Strip(networkRow[col]);
      assert protocols[col] == p && networks[col] == n;
      if p != "" { protocol := p; }
      if n != "" { network := n; }
      ghost var before, here := blocks, [];
      if protocol != "" && network != "" {
        here := [Found(protocol, network, col)];
        blocks := blocks + [Found(protocol, network, col)];
        network := "";
      }
      col := col + 3;
      PrefixedTwice(before, here, Scan(protocols, networks, col, protocol, network));
    }
    assert blocks + [] == blocks;
    found := Some(blocks);
  }

  method ReadColumns(fmt: Numerals, rows: Grid, start: nat) returns (columns: Columns)
    ensures columns == ColumnsOf(fmt, rows, start)
  {
    var query, competitor, us, speedup := [], [], [], [];
    for i := 0 to |rows|
      invariant Columns(query, competitor, us, speedup) == ColumnsOf(fmt, rows[..i], start)
    {
      assert rows[..i + 1][..i] == rows[..i];
      var row := rows[i];
      if row == [] || Blank(row[0]) {
        continue;
      }
      query := query + [Strip(row[0])];
      competitor := competitor + [CellAt(fmt, row, start)];
      us := us + [CellAt(fmt, row, start + 1)];
      speedup := speedup + [CellAt(fmt, row, start + 2)];
    }
    assert rows[..|rows|] == rows;
    columns := Columns(query, competitor, us, speedup);
  }

  /** The rows above the header go. */
  method DropTop(grid: Grid) returns (rows: Grid)
    ensures rows == DropTitle(DropBlankRows(grid))
  {
    rows := grid;
    while rows != [] && AllBlank(rows[0])
      invariant DropBlankRows(rows) == DropBlankRows(grid)
    {
      rows := rows[1..];
    }
    if rows != [] && IsTitle(rows[0]) {
      rows := rows[1..];
    }
  }

  method CollectBlocks(fmt: Numerals, rows: Grid, blocks: seq<Found>) returns (table: map<Block, Columns>)
    ensures table == Collect(fmt, rows, blocks)
  {
    table := map[];
    for i := 0 to |blocks|
      invariant table == Collect(fmt, rows, blocks[..i])
    {
      assert blocks[..i + 1][..i] == blocks[..i];
      var columns := ReadColumns(fmt, rows, blocks[i].start);
      table := table[Block(blocks[i].protocol, blocks[i].network) := columns];
    }
    assert blocks[..|blocks|] == blocks;
  }

  /** load_csv after the CSV decoding. */
  method Load(fmt: Numerals, grid: Grid) returns (result: Option<map<Block, Columns>>)
    ensures result == LoadSpec(fmt, grid)
  {
    var rows := DropTop(grid);
    if |rows| < 3 {
      return Some(map[]);
    }
    var found := ScanHeader(rows[0], rows[1]);
    if found == None {
      return None;
    }
    var table := CollectBlocks(fmt, rows[3..], found.value);
    result := Some(table);
  }

  // ----- The round trip -----

  /** What a reader should get for a block: labels, and every number as formatting and parsing leave it. */
  function Reread(fmt: Numerals, b: Block, lines: seq<Line>): Columns {
    var kept := LabelledLines(lines);
    Columns(
      seq(|kept|, i requires 0 <= i < |kept| => Strip(kept[i].text)),
      seq(|kept|, i requires 0 <= i < |kept| => Number(fmt, TimingOf(kept[i], b).competitor)),
      seq(|kept|, i requires 0 <= i < |kept| => Number(fmt, TimingOf(kept[i], b).ours)),
      seq(|kept|, i requires 0 <= i < |kept| => Ratio(fmt, TimingOf(kept[i], b))))
  }

  function Number(fmt: Numerals, v: Option<real>): Option<real> {
    match v case None => None case Some(x) => fmt.parse(fmt.six(x))
  }

  function Ratio(fmt: Numerals, t: Timing): Option<real> {
    if t.competitor == None || t.ours == None || t.ours == Some(0.0) then None
    else fmt.parse(fmt.two(t.competitor.value / t.ours.value))
  }

  function LabelledLines(lines: seq<Line>): seq<Line> {
    if lines == [] then []
    else LabelledLines(lines[..|lines| - 1]) + (if Blank(lines[|lines| - 1].text) then [] else [lines[|lines| - 1]])
  }

  predicate HasText(line: Line) { !Blank(line.text) }

  /** The lines read back are those with a label, and what a block's columns hold of them. */
  lemma {:induction false} ReadValues(fmt: Numerals, b: Block, lines: seq<Line>, j: nat)
    requires j < |Select(lines, HasText)|
    ensures var line, r := Select(lines, HasText)[j], Reread(fmt, b, lines);
            && |r.query| == |r.competitor| == |r.us| == |r.speedup| == |Select(lines, HasText)|
            && r.query[j] == Strip(line.text)
            && (b in line.perBlock ==>
                  var t := line.perBlock[b];
                  && Reads(r.competitor[j], x => fmt.parse(fmt.six(x)), t.competitor)
                  && Reads(r.us[j], x => fmt.parse(fmt.six(x)), t.ours)
                  && Reads(r.speedup[j], x => fmt.parse(fmt.two(x)), RatioOf(t)))
            && (b !in line.perBlock ==> r.competitor[j] == r.us[j] == r.speedup[j] == None)
  {
    KeptLines(lines);
  }

  ghost predicate Reads(cell: Option<real>, reread: real -> Option<real>, v: Option<real>) {
    cell == match v case None => None case Some(x) => reread(x)
  }

  lemma {:induction false} KeptLines(lines: seq<Line>)
    ensures LabelledLines(lines) == Select(lines, HasText)
  {
    if lines != [] { KeptLines(lines[..|lines| - 1]); }
  }

  function Name(b: Block): Block { Block(Strip(b.protocol), Strip(b.network)) }

  ghost predicate Named(blocks: seq<Block>) {
    forall i :: 0 <= i < |blocks| ==> !Blank(blocks[i].protocol) && !Blank(blocks[i].network)
  }

  /** The blocks at their columns, with stripped names. */
  function FoundFrom(blocks: seq<Block>, i: nat): seq<Found>
    requires i <= |blocks|
  {
    seq(|blocks| - i, j requires 0 <= j < |blocks| - i =>
      Found(Name(blocks[i + j]).protocol, Name(blocks[i + j]).network, 1 + 3 * (i + j)))
  }

  lemma {:induction false} HeaderCells(blocks: seq<Block>, i: nat)
    requires i < |blocks|
    ensures var c := 1 + 3 * i;
            && c < Width(blocks) && ProtocolRow(blocks)[c] == ProtocolCell(blocks, i)
            && NetworkRow(blocks)[c] == blocks[i].network
  {
    Thirds(i);
  }

  /** Block i's cells in the stripped header rows. */
  ghost predicate Header(blocks: seq<Block>, protocols: seq<string>, networks: seq<string>, i: nat) {
    && i < |blocks| && |protocols| == |networks| == Width(blocks)
    && Name(blocks[i]).protocol != "" && networks[1 + 3 * i] == Name(blocks[i]).network != ""
    && (protocols[1 + 3 * i] == Name(blocks[i]).protocol
        || (i > 0 && protocols[1 + 3 * i] == "" && Name(blocks[i - 1]).protocol == Name(blocks[i]).protocol))
  }

  lemma {:induction false} HeaderOf(blocks: seq<Block>, i: nat)
    requires Named(blocks) && i < |blocks|
    ensures Header(blocks, StripAll(ProtocolRow(blocks)), StripAll(NetworkRow(blocks)), i)
  {
    HeaderCells(blocks, i);
    assert Strip("") == "";
  }

  lemma {:induction false} FoundStep(blocks: seq<Block>, i: nat)
    requires i < |blocks|
    ensures FoundFrom(blocks, i)
         == [Found(Name(blocks[i]).protocol, Name(blocks[i]).network, 1 + 3 * i)] + FoundFrom(blocks, i + 1)
  {
  }

  /** The scan fills in the protocol names that were written only once. */
  lemma {:induction false} ScanFinds(blocks: seq<Block>, protocols: seq<string>, networks: seq<string>, i: nat,
                                     col: nat, protocol: string)
    requires |protocols| == |networks| == Width(blocks)
    requires forall k :: 0 <= k < |blocks| ==> Header(blocks, protocols, networks, k)
    requires i <= |blocks| && col == 1 + 3 * i && (i > 0 ==> protocol == Name(blocks[i - 1]).protocol)
    ensures Scan(protocols, networks, col, protocol, "") == Some(FoundFrom(blocks, i))
    decreases |blocks| - i
  {
    if i == |blocks| {
      assert FoundFrom(blocks, i) == [];
    } else {
      assert Header(blocks, protocols, networks, i);
      ScanFinds(blocks, protocols, networks, i + 1, col + 3, Name(blocks[i]).protocol);
      FoundStep(blocks, i);
    }
  }

  lemma {:induction false} LabelledRows(fmt: Numerals, blocks: seq<Block>, lines: seq<Line>)
    ensures Labelled(DataRows(fmt, blocks, lines)) == DataRows(fmt, blocks, LabelledLines(lines))
  {
    if lines != [] {
      var n := |lines| - 1;
      LabelledRows(fmt, blocks, lines[..n]);
      assert DataRows(fmt, blocks, lines)[..n] == DataRows(fmt, blocks, lines[..n]);
      assert DataRow(fmt, blocks, lines[n])[0] == lines[n].text;
    }
  }

  /** One line's three cells of a block, read back. */
  lemma {:induction false} ReadBlockCells(fmt: Numerals, blocks: seq<Block>, line: Line, i: nat)
    requires CleanNumerals(fmt) && i < |blocks|
    ensures var row, t, c := DataRow(fmt, blocks, line), TimingOf(line, blocks[i]), 1 + 3 * i;
            && CellAt(fmt, row, c) == Number(fmt, t.competitor)
            && CellAt(fmt, row, c + 1) == Number(fmt, t.ours)
            && CellAt(fmt, row, c + 2) == Ratio(fmt, t)
  {
    BlockCells(fmt, blocks, line, i);
    var row, c := DataRow(fmt, blocks, line), 1 + 3 * i;
    ReadCell(fmt, row[c]);
    ReadCell(fmt, row[c + 1]);
    ReadCell(fmt, row[c + 2]);
  }

  lemma {:induction false} BlockCells(fmt: Numerals, blocks: seq<Block>, line: Line, i: nat)
    requires i < |blocks|
    ensures var row, t, c := DataRow(fmt, blocks, line), TimingOf(line, blocks[i]), 1 + 3 * i;
            && c + 2 < |row| && row[c] == Fmt(fmt, t.competitor) && row[c + 1] == Fmt(fmt, t.ours)
            && row[c + 2] == SpeedUp(fmt, t)
  {
    Thirds(i);
  }

  lemma {:induction false} Thirds(i: nat)
    ensures (3 * i) / 3 == (3 * i + 1) / 3 == (3 * i + 2) / 3 == i
    ensures (3 * i) % 3 == 0 && (3 * i + 1) % 3 == 1 && (3 * i + 2) % 3 == 2
  {
  }

  lemma {:induction false} ReadBlock(fmt: Numerals, blocks: seq<Block>, lines: seq<Line>, i: nat)
    requires CleanNumerals(fmt) && i < |blocks|
    ensures ColumnsOf(fmt, DataRows(fmt, blocks, lines), 1 + 3 * i) == Reread(fmt, blocks[i], lines)
  {
    LabelledRows(fmt, blocks, lines);
    var kept := LabelledLines(lines);
    var rows := DataRows(fmt, blocks, kept);
    forall j | 0 <= j < |kept|
      ensures rows[j] != [] && rows[j][0] == kept[j].text
      ensures CellAt(fmt, rows[j], 1 + 3 * i) == Number(fmt, TimingOf(kept[j], blocks[i]).competitor)
      ensures CellAt(fmt, rows[j], 1 + 3 * i + 1) == Number(fmt, TimingOf(kept[j], blocks[i]).ours)
      ensures CellAt(fmt, rows[j], 1 + 3 * i + 2) == Ratio(fmt, TimingOf(kept[j], blocks[i]))
    {
      ReadBlockCells(fmt, blocks, kept[j], i);
    }
  }

  /** The table the reader should return, block by block. */
  function Expected(fmt: Numerals, blocks: seq<Block>, lines: seq<Line>): map<Block, Columns> {
    if blocks == [] then map[]
    else Expected(fmt, blocks[..|blocks| - 1], lines)[Name(blocks[|blocks| - 1]) := Reread(fmt, blocks[|blocks| - 1],
        lines)]
  }

  lemma {:induction false} CollectFound(fmt: Numerals, rows: Grid, blocks: seq<Block>, lines: seq<Line>, k: nat)
    requires k <= |blocks|
    requires forall i :: 0 <= i < |blocks| ==> ColumnsOf(fmt, rows, 1 + 3 * i) == Reread(fmt, blocks[i], lines)
    ensures Collect(fmt, rows, FoundFrom(blocks, 0)[..k]) == Expected(fmt, blocks[..k], lines)
  {
    if k > 0 {
      CollectFound(fmt, rows, blocks, lines, k - 1);
      var found := FoundFrom(blocks, 0);
      assert found[..k][..k - 1] == found[..k - 1] && blocks[..k][..k - 1] == blocks[..k - 1];
      assert found[k - 1] == Found(Name(blocks[k - 1]).protocol, Name(blocks[k - 1]).network, 1 + 3 * (k - 1));
    }
  }

  lemma {:induction false} ProtocolRowStays(blocks: seq<Block>)
    requires Named(blocks) && blocks != []
    ensures !AllBlank(ProtocolRow(blocks)) && !IsTitle(ProtocolRow(blocks))
  {
    var row := ProtocolRow(blocks);
    HeaderCells(blocks, 0);
    assert row[1] in row && row[1..][0] in row[1..];
  }

  lemma {:induction false} TitleGoes(row: seq<string>)
    requires |row| >= 1 && forall c :: 1 <= c < |row| ==> row[c] == ""
    ensures IsTitle(row)
  {
    assert Strip("") == "";
    assert forall c :: c in row[1..] ==> c == "";
  }

  lemma {:induction false} RowsStay(rows: Grid)
    requires rows != [] && !AllBlank(rows[0]) && !IsTitle(rows[0])
    ensures DropTitle(DropBlankRows(rows)) == rows
  {
  }

  lemma {:induction false} TitleRowGoes(row: seq<string>, rows: Grid)
    requires rows != [] && !AllBlank(rows[0]) && !IsTitle(rows[0]) && IsTitle(row)
    ensures DropTitle(DropBlankRows([row] + rows)) == rows
  {
    assert ([row] + rows)[1..] == rows;
    RowsStay(rows);
  }

  /** Blank rows and the title go, the header stays. */
  lemma {:induction false} HeaderStays(blocks: seq<Block>, title: Option<string>, body: Grid)
    requires Named(blocks) && blocks != [] && body != [] && body[0] == ProtocolRow(blocks)
    ensures DropTitle(DropBlankRows(TitleRows(blocks, title) + body)) == body
  {
    ProtocolRowStays(blocks);
    match title
    case None =>
      assert TitleRows(blocks, title) + body == body;
      RowsStay(body);
    case Some(t) =>
      var row := TitleRows(blocks, title)[0];
      TitleGoes(row);
      TitleRowGoes(row, body);
  }

  /** Blank rows above the table change nothing. */
  lemma {:induction false} BlankRowsIgnored(fmt: Numerals, blank: Grid, grid: Grid)
    requires forall row :: row in blank ==> AllBlank(row)
    ensures LoadSpec(fmt, blank + grid) == LoadSpec(fmt, grid)
  {
    if blank != [] {
      assert (blank + grid)[0] == blank[0] && blank[0] in blank;
      assert (blank + grid)[1..] == blank[1..] + grid;
      BlankRowsIgnored(fmt, blank[1..], grid);
    } else {
      assert blank + grid == grid;
    }
  }

  lemma {:induction false} NarrowRows(rows: Grid)
    requires forall r :: r in rows ==> |r| == 1
    ensures forall r :: r in DropBlankRows(rows) ==> |r| == 1
  {
    if rows != [] { NarrowRows(rows[1..]); }
  }

  /** Reading back what was written: for every list of blocks with non-blank names, all lines and any title. */
  lemma {:induction false} RoundTrip(fmt: Numerals, competitor: string, blocks: seq<Block>, lines: seq<Line>,
                                     title: Option<string>)
    requires CleanNumerals(fmt) && Named(blocks)
    ensures LoadSpec(fmt, GridOf(fmt, competitor, blocks, lines, title)) == Some(Expected(fmt, blocks, lines))
  {
    var grid := GridOf(fmt, competitor, blocks, lines, title);
    if blocks == [] {
      NarrowRows(grid);
    } else {
      var rows := Body(fmt, competitor, blocks, lines);
      HeaderStays(blocks, title, rows);
      forall i | 0 <= i < |blocks| ensures Header(blocks, StripAll(rows[0]), StripAll(rows[1]), i) {
        HeaderOf(blocks, i);
      }
      ScanFinds(blocks, StripAll(rows[0]), StripAll(rows[1]), 0, 1, "");
      assert rows[3..] == DataRows(fmt, blocks, lines);
      forall i | 0 <= i < |blocks| ensures ColumnsOf(fmt, rows[3..], 1 + 3 * i) == Reread(fmt, blocks[i], lines) {
        ReadBlock(fmt, blocks, lines, i);
      }
      CollectFound(fmt, rows[3..], blocks, lines, |blocks|);
      assert FoundFrom(blocks, 0)[..|blocks|] == FoundFrom(blocks, 0) && blocks[..|blocks|] == blocks;
    }
  }

  ghost predicate IsName(blocks: seq<Block>, k: Block) {
    exists i :: 0 <= i < |blocks| && k == Name(blocks[i])
  }

  ghost predicate NamesDistinct(blocks: seq<Block>) {
    forall i, j :: 0 <= i < j < |blocks| ==> Name(blocks[i]) != Name(blocks[j])
  }

  /** The reader returns the stripped names and no others. */
  lemma {:induction false} NothingElse(fmt: Numerals, blocks: seq<Block>, lines: seq<Line>, k: Block)
    ensures k in Expected(fmt, blocks, lines) <==> IsName(blocks, k)
  {
    if blocks != [] {
      var n := |blocks| - 1;
      NothingElse(fmt, blocks[..n], lines, k);
      if IsName(blocks[..n], k) {
        var i :| 0 <= i < n && k == Name(blocks[..n][i]);
        assert k == Name(blocks[i]);
      }
      if IsName(blocks, k) && k != Name(blocks[n]) {
        var i :| 0 <= i < |blocks| && k == Name(blocks[i]);
        assert blocks[..n][i] == blocks[i];
      }
    }
  }

  /** As many blocks come back as were written exactly when their stripped names are distinct. */
  lemma {:induction false} CountReturned(fmt: Numerals, blocks: seq<Block>, lines: seq<Line>)
    ensures |Expected(fmt, blocks, lines)| <= |blocks|
    ensures |Expected(fmt, blocks, lines)| == |blocks| <==> NamesDistinct(blocks)
  {
    if blocks != [] {
      var n := |blocks| - 1;
      var before, name := Expected(fmt, blocks[..n], lines), Name(blocks[n]);
      CountReturned(fmt, blocks[..n], lines);
      NothingElse(fmt, blocks[..n], lines, name);
      var after := before[name := Reread(fmt, blocks[n], lines)];
      assert Expected(fmt, blocks, lines) == after;
      assert after.Keys == before.Keys + {name};
      assert |after| == |after.Keys| && |before| == |before.Keys|;
      DistinctStep(blocks);
    }
  }

  lemma {:induction false} DistinctStep(blocks: seq<Block>)
    requires blocks != []
    ensures NamesDistinct(blocks) <==>
      NamesDistinct(blocks[..|blocks| - 1]) && !IsName(blocks[..|blocks| - 1], Name(blocks[|blocks| - 1]))
  {
    var n := |blocks| - 1;
    if IsName(blocks[..n], Name(blocks[n])) {
      var i :| 0 <= i < n && Name(blocks[n]) == Name(blocks[..n][i]);
      assert Name(blocks[i]) == Name(blocks[n]);
    }
    if NamesDistinct(blocks[..n]) && !IsName(blocks[..n], Name(blocks[n])) {
      forall i, j | 0 <= i < j < |blocks| ensures Name(blocks[i]) != Name(blocks[j]) {
        assert blocks[..n][i] == blocks[i];
        if j < n { assert blocks[..n][j] == blocks[j]; }
      }
    }
    if NamesDistinct(blocks) {
      forall i, j | 0 <= i < j < n ensures Name(blocks[..n][i]) != Name(blocks[..n][j]) {
        assert Name(blocks[i]) != Name(blocks[j]);
      }
    }
  }

  /** The block comes back with its own columns. */
  ghost predicate ComesBack(fmt: Numerals, blocks: seq<Block>, lines: seq<Line>, i: nat)
    requires i < |blocks|
  {
    && Name(blocks[i]) in Expected(fmt, blocks, lines)
    && Expected(fmt, blocks, lines)[Name(blocks[i])] == Reread(fmt, blocks[i], lines)
  }

  /** Every block comes back, as an entry of its own. */
  ghost predicate AllComeBack(fmt: Numerals, blocks: seq<Block>, lines: seq<Line>) {
    && |Expected(fmt, blocks, lines)| == |blocks|
    && forall i: nat :: i < |blocks| ==> ComesBack(fmt, blocks, lines, i)
  }

  /** A block comes back when no later block has its stripped name. */
  lemma {:induction false} LastOfNameReturns(fmt: Numerals, blocks: seq<Block>, lines: seq<Line>, i: nat)
    requires i < |blocks| && forall j :: i < j < |blocks| ==> Name(blocks[i]) != Name(blocks[j])
    ensures ComesBack(fmt, blocks, lines, i)
  {
    var n := |blocks| - 1;
    if i < n {
      forall j | i < j < n ensures Name(blocks[..n][i]) != Name(blocks[..n][j]) {
        assert Name(blocks[i]) != Name(blocks[j]);
      }
      LastOfNameReturns(fmt, blocks[..n], lines, i);
      assert Name(blocks[i]) != Name(blocks[n]);
    }
  }

  /** Every block comes back as its own entry if and only if the stripped names are distinct. */
  lemma {:induction false} EveryBlock(fmt: Numerals, blocks: seq<Block>, lines: seq<Line>)
    ensures AllComeBack(fmt, blocks, lines) <==> NamesDistinct(blocks)
  {
    CountReturned(fmt, blocks, lines);
    if NamesDistinct(blocks) {
      forall i: nat | i < |blocks| ensures ComesBack(fmt, blocks, lines, i) {
        LastOfNameReturns(fmt, blocks, lines, i);
      }
    }
  }

  /** Two names that differ only in surrounding space are one name to the reader: the first block is lost. */
  lemma {:induction false} StrippedNamesCollide(fmt: Numerals, lines: seq<Line>)
    ensures var blocks := [Block("2PC", "LAN"), Block("2PC", "LAN ")];
            blocks[0] != blocks[1] && !NamesDistinct(blocks) && |Expected(fmt, blocks, lines)| == 1
  {
    var blocks := [Block("2PC", "LAN"), Block("2PC", "LAN ")];
    assert "LAN "[..3] == "LAN";
    assert Strip("LAN ") == "LAN" == Strip("LAN");
    assert Name(blocks[0]) == Name(blocks[1]);
    CountReturned(fmt, blocks, lines);
    NothingElse(fmt, blocks, lines, Name(blocks[0]));
    assert IsName(blocks, Name(blocks[0]));
    assert |Expected(fmt, blocks, lines)| == |Expected(fmt, blocks, lines).Keys|;
    assert Name(blocks[0]) in Expected(fmt, blocks, lines).Keys;
  }
}
