/**
 * The line parser of the report generator (`create_docx_from_markdown`):
 * the Markdown text is split into lines and each stripped line becomes a
 * heading, a bullet, an emphasised or a plain paragraph, while a run of
 * consecutive lines starting with `|` becomes one table. The document is
 * modelled as the sequence of blocks it receives, in order; `None` stands for
 * the `IndexError` the table filling raises when a row has more cells than
 * the first.
 *
 * The parse is specified in two layers: `Classify` says what a single line
 * is (blank, a table row, or a line of text and its block), and `ParseFrom`
 * groups the classified lines into blocks.
 */
module Markdown {
  import opened Wrappers
  import opened Text

  /** The green check mark that makes an emphasised line bold and green. */
  const CheckMark: char := '\U{2705}'

  /**
   * One element of the document. A table's first row is its header (set in
   * bold) and gives its number of columns.
   */
  datatype Block =
    | Heading(level: nat, text: string)
    | Table(rows: seq<seq<string>>)
    | Bullet(text: string)
    | Emphasis(text: string, green: bool)
    | Paragraph(text: string)

  /**
   * The block for a stripped, non-blank line outside a table; the prefixes
   * are tried in the order the generator tries them.
   */
  function LineBlock(line: string): Block {
    if StartsWith(line, "# ") then Heading(1, line[2..])
    else if StartsWith(line, "## ") then Heading(2, line[3..])
    else if StartsWith(line, "### ") then Heading(3, line[4..])
    else if StartsWith(line, "- ") then Bullet(line[2..])
    else if StartsWith(line, [CheckMark]) || StartsWith(line, "**") then Emphasis(line, CheckMark in line)
    else Paragraph(line)
  }

  /** The cells of a table line: split at `|`, the first and last pieces dropped, each cell stripped. */
  function Cells(line: string): seq<string> {
    var parts := Split(Strip(line), '|');
    if |parts| < 2 then []
    else seq(|parts| - 2, k requires 0 <= k < |parts| - 2 => Strip(parts[k + 1]))
  }

  predicate SeparatorChar(c: char) {
    c == '-' || c == ':' || c == ' '
  }

  /** A row is kept unless it is empty or its joined cells hold nothing but `-`, `:` and spaces. */
  predicate Keep(row: seq<string>) {
    var joined := Concat(row);
    row != [] && !(forall k :: 0 <= k < |joined| ==> SeparatorChar(joined[k]))
  }

  /** What one line of the file is to the generator. */
  datatype Line =
    | BlankLine
    | TableLine(cells: seq<string>, kept: bool)
    | TextLine(block: Block)

  function Classify(raw: string): Line {
    var line := Strip(raw);
    if line == [] then BlankLine
    else if StartsWith(line, "|") then TableLine(Cells(raw), Keep(Cells(raw)))
    else TextLine(LineBlock(line))
  }

  /** Every line of the file, classified. */
  function Classified(lines: seq<string>): (ls: seq<Line>)
    ensures |ls| == |lines|
    decreases |lines|
  {
    if lines == [] then [] else Classified(lines[..|lines| - 1]) + [Classify(lines[|lines| - 1])]
  }

  lemma {:induction false} ClassifiedIndex(lines: seq<string>, k: nat)
    requires k < |lines|
    ensures Classified(lines)[k] == Classify(lines[k])
    decreases |lines|
  {
    if k < |lines| - 1 {
      ClassifiedIndex(lines[..|lines| - 1], k);
    }
  }

  /** No line of text stands for a table: tables come only from runs of table lines. */
  predicate TextIsNoTable(ls: seq<Line>) {
    forall k :: 0 <= k < |ls| && ls[k].TextLine? ==> !ls[k].block.Table?
  }

  lemma ClassifiedTextIsNoTable(lines: seq<string>)
    ensures TextIsNoTable(Classified(lines))
  {
    var ls := Classified(lines);
    forall k | 0 <= k < |ls| && ls[k].TextLine? ensures !ls[k].block.Table? {
      ClassifiedIndex(lines, k);
    }
  }

  /** What line `i` is, in the terms the generator's loop tests. */
  lemma ClassifiedAt(lines: seq<string>, ls: seq<Line>, i: nat)
    requires ls == Classified(lines) && i < |lines|
    ensures ls[i].BlankLine? <==> Strip(lines[i]) == []
    ensures ls[i].TableLine? <==> StartsWith(Strip(lines[i]), "|")
    ensures ls[i].TableLine? ==> ls[i].cells == Cells(lines[i]) && ls[i].kept == Keep(ls[i].cells)
    ensures ls[i].TextLine? ==> ls[i].block == LineBlock(Strip(lines[i]))
  {
    ClassifiedIndex(lines, i);
  }

  /** The first line at or after `i` that does not continue the table (or the end). */
  function TableEnd(ls: seq<Line>, i: nat): (j: nat)
    requires i <= |ls|
    ensures i <= j <= |ls|
    decreases |ls| - i
  {
    if i < |ls| && ls[i].TableLine? then TableEnd(ls, i + 1) else i
  }

  /** The run from `i` to `TableEnd` is a maximal run of table lines. */
  lemma {:induction false} TableEndMaximal(ls: seq<Line>, i: nat)
    requires i <= |ls|
    ensures forall k :: i <= k < TableEnd(ls, i) ==> ls[k].TableLine?
    ensures TableEnd(ls, i) == |ls| || !ls[TableEnd(ls, i)].TableLine?
    decreases |ls| - i
  {
    if i < |ls| && ls[i].TableLine? {
      TableEndMaximal(ls, i + 1);
    }
  }

  /** The rows kept from lines `i` up to `j`, in order. */
  function KeptRows(ls: seq<Line>, i: nat, j: nat): seq<seq<string>>
    requires i <= j <= |ls|
    decreases j
  {
    if j == i then []
    else KeptRows(ls, i, j - 1) + (if ls[j - 1].TableLine? && ls[j - 1].kept then [ls[j - 1].cells] else [])
  }

  /** Whether filling the table succeeds: no row has more cells than the first. */
  predicate Fits(rows: seq<seq<string>>) {
    rows != [] && forall k :: 0 <= k < |rows| ==> |rows[k]| <= |rows[0]|
  }

  /** `blocks` followed by the outcome `rest`; an error stays an error. */
  function Then(blocks: seq<Block>, rest: Option<seq<Block>>): Option<seq<Block>> {
    if rest.None? then None else Some(blocks + rest.value)
  }

  /** The blocks produced from line `i` on. */
  function ParseFrom(ls: seq<Line>, i: nat): Option<seq<Block>>
    requires i <= |ls|
    decreases |ls| - i
  {
    if i == |ls| then Some([])
    else
      match ls[i]
      case BlankLine => ParseFrom(ls, i + 1)
      case TextLine(block) => Then([block], ParseFrom(ls, i + 1))
      case TableLine(_, _) =>
        var j := TableEnd(ls, i);
        var rows := KeptRows(ls, i, j);
        if rows == [] then ParseFrom(ls, j)
        else if !Fits(rows) then None
        else Then([Table(rows)], ParseFrom(ls, j))
  }

  /**
   * The document built from the text of a Markdown file. `content` is the
   * text as read in universal-newline mode, so `\r\n` and a lone `\r` have
   * already become `\n`.
   */
  function Parse(content: string): Option<seq<Block>> {
    ParseFrom(Classified(Split(content, '\n')), 0)
  }

  // ---------------------------------------------------------------------
  // The generator's loop
  // ---------------------------------------------------------------------

  /** `create_docx_from_markdown`, with the document returned as its blocks. */
  method CreateDocxFromMarkdown(content: string) returns (blocks: Option<seq<Block>>)
    ensures blocks == Parse(content)
  {
    var lines := Split(content, '\n');
    ghost var ls := Classified(lines);
    var doc: seq<Block> := [];
    var i := 0;
    ghost var result := ParseFrom(ls, 0);
    assert Then([], result) == result by {
      if result.Some? {
        assert [] + result.value == result.value;
      }
    }
    while i < |lines|
      invariant 0 <= i <= |lines|
      invariant result == Then(doc, ParseFrom(ls, i))
      decreases |lines| - i
    {
      var failed;
      doc, i, failed := ParseLine(lines, ls, i, doc);
      if failed {
        return None;
      }
    }
    assert ParseFrom(ls, i) == Some([]) && doc + [] == doc;
    blocks := Some(doc);
  }

  /**
   * One turn of the generator's loop at line `i`: the document extended by
   * what that line (or the table it opens) produces, the next line to look
   * at, and whether filling a table failed.
   */
  method ParseLine(lines: seq<string>, ghost ls: seq<Line>, i: nat, doc: seq<Block>)
    returns (doc': seq<Block>, next: nat, failed: bool)
    requires ls == Classified(lines) && i < |lines|
    ensures i < next <= |lines|
    ensures Then(doc, ParseFrom(ls, i)) == if failed then None else Then(doc', ParseFrom(ls, next))
  {
    var line := Strip(lines[i]);
    ClassifiedAt(lines, ls, i);
    if line == [] {
      return doc, i + 1, false;
    }
    var block, isTable := ClassifyLine(line);
    if isTable {
      doc', next, failed := AddTable(lines, ls, i, doc);
    } else {
      doc' := doc + [block];
      ThenAppend(doc, [block], ParseFrom(ls, i + 1));
      next, failed := i + 1, false;
    }
  }

  /**
   * The generator's tests on a stripped, non-blank line, in its order: the
   * block the line becomes, or `isTable` when it opens a table.
   */
  method ClassifyLine(line: string) returns (block: Block, isTable: bool)
    ensures isTable <==> StartsWith(line, "|")
    ensures !isTable ==> block == LineBlock(line)
  {
    isTable := false;
    if line != [] && line[0] != '|' {
      assert !StartsWith(line, "|");
    }
    if StartsWith(line, "# ") {
      block := Heading(1, line[2..]);
    } else if StartsWith(line, "## ") {
      block := Heading(2, line[3..]);
    } else if StartsWith(line, "### ") {
      block := Heading(3, line[4..]);
    } else if StartsWith(line, "|") {
      block, isTable := Paragraph(line), true;
    } else if StartsWith(line, "- ") {
      block := Bullet(line[2..]);
    } else if StartsWith(line, [CheckMark]) || StartsWith(line, "**") {
      block := Emphasis(line, CheckMark in line);
    } else {
      block := Paragraph(line);
    }
  }

  /** The table branch: read the run of table lines from `i` and add the table if any row is kept. */
  method AddTable(lines: seq<string>, ghost ls: seq<Line>, i: nat, doc: seq<Block>)
    returns (doc': seq<Block>, next: nat, failed: bool)
    requires ls == Classified(lines) && i < |lines| && ls[i].TableLine?
    ensures i < next <= |lines|
    ensures Then(doc, ParseFrom(ls, i)) == if failed then None else Then(doc', ParseFrom(ls, next))
  {
    var tableData, last := ReadTable(lines, ls, i);
    next, doc', failed := last + 1, doc, false;
    if tableData != [] {
      var filled := FillTable(tableData);
      if !filled {
        return doc', next, true;
      }
      doc' := doc + [Table(tableData)];
      ThenAppend(doc, [Table(tableData)], ParseFrom(ls, next));
    }
  }

  /**
   * The inner loop over a run of table lines starting at `start`: the kept
   * rows, and the index of the run's last line (the loop steps one past it
   * and then back by one).
   */
  method ReadTable(lines: seq<string>, ghost ls: seq<Line>, start: nat) returns (tableData: seq<seq<string>>, last: nat)
    requires ls == Classified(lines) && start < |lines| && ls[start].TableLine?
    ensures tableData == KeptRows(ls, start, TableEnd(ls, start))
    ensures last + 1 == TableEnd(ls, start)
  {
    tableData := [];
    var i := start;
    while i < |lines|
      invariant start <= i <= |lines|
      invariant TableEnd(ls, i) == TableEnd(ls, start)
      invariant tableData == KeptRows(ls, start, i)
      decreases |lines| - i
    {
      var isRow, row, keep := ReadRow(lines, ls, i);
      if !isRow {
        break;
      }
      if keep {
        tableData := tableData + [row];
      }
      i := i + 1;
    }
    last := i - 1;
  }

  /**
   * The loop's test and body on line `i`: whether it continues the table,
   * and if so its cells and whether the row is kept.
   */
  method ReadRow(lines: seq<string>, ghost ls: seq<Line>, i: nat) returns (isRow: bool, row: seq<string>, keep: bool)
    requires ls == Classified(lines) && i < |lines|
    ensures isRow <==> ls[i].TableLine?
    ensures isRow ==> row == ls[i].cells && keep == ls[i].kept
  {
    ClassifiedAt(lines, ls, i);
    isRow := StartsWith(Strip(lines[i]), "|");
    row, keep := [], false;
    if isRow {
      row := Cells(lines[i]);
      keep := Keep(row);
    }
  }

  /**
   * Filling the table's cells row by row; the cell lookup fails (`false`)
   * at the first row with more cells than the header row.
   */
  method FillTable(tableData: seq<seq<string>>) returns (filled: bool)
    requires tableData != []
    ensures filled <==> Fits(tableData)
  {
    var columns := |tableData[0]|;
    var r := 0;
    while r < |tableData|
      invariant 0 <= r <= |tableData|
      invariant forall k :: 0 <= k < r ==> |tableData[k]| <= columns
    {
      if |tableData[r]| > columns {
        return false;
      }
      r := r + 1;
    }
    return true;
  }

  lemma ThenAppend(doc: seq<Block>, blocks: seq<Block>, rest: Option<seq<Block>>)
    ensures Then(doc, Then(blocks, rest)) == Then(doc + blocks, rest)
  {
    if rest.Some? {
      assert doc + (blocks + rest.value) == (doc + blocks) + rest.value;
    }
  }

  // ---------------------------------------------------------------------
  // What a single line becomes
  // ---------------------------------------------------------------------

  /**
   * A line is blank exactly when it is all whitespace, a table row exactly
   * when it starts with `|` once stripped, and otherwise a text line whose
   * block is that of the stripped line.
   */
  lemma ClassifyRule(raw: string)
    ensures Classify(raw).BlankLine? <==> AllSpace(raw)
    ensures Classify(raw).TableLine? <==> StartsWith(Strip(raw), "|")
    ensures Classify(raw).TableLine? ==> Classify(raw).kept == Keep(Classify(raw).cells)
    ensures Classify(raw).TextLine? ==> Strip(raw) != [] && Classify(raw).block == LineBlock(Strip(raw))
  {
    StripMeaning(raw);
  }

  /** `#`, `##` or `###` followed by a space and some text is a heading of that level holding the text. */
  lemma HeadingLevels(level: nat, text: string)
    requires 1 <= level <= 3
    ensures LineBlock(Repeat('#', level) + " " + text) == Heading(level, text)
  {
    var line := Repeat('#', level) + " " + text;
    assert line[level] == ' ';
    if level >= 2 {
      assert line[1] == '#';
    }
    if level == 3 {
      assert line[2] == '#';
    }
  }

  /** Conversely, a heading block is exactly such a line, of level 1 to 3. */
  lemma HeadingShape(line: string)
    requires LineBlock(line).Heading?
    ensures 1 <= LineBlock(line).level <= 3
    ensures line == Repeat('#', LineBlock(line).level) + " " + LineBlock(line).text
  {
    var b := LineBlock(line);
    assert line == line[..b.level + 1] + line[b.level + 1..];
  }

  /**
   * A line is emphasised exactly when it starts with the check mark or `**`
   * (and is no heading or bullet); it keeps the whole line, and it is green
   * exactly when the check mark occurs anywhere in it.
   */
  lemma EmphasisRule(line: string)
    requires line != [] && line[0] != '#' && line[0] != '-'
    ensures LineBlock(line).Emphasis? <==> StartsWith(line, [CheckMark]) || StartsWith(line, "**")
    ensures LineBlock(line).Emphasis? ==> LineBlock(line).text == line && (LineBlock(line).green <==> CheckMark in line)
    ensures !LineBlock(line).Emphasis? ==> LineBlock(line) == Paragraph(line)
  {
  }

  /** A bullet holds the line after its `- `. */
  lemma BulletRule(line: string)
    requires StartsWith(line, "- ")
    ensures LineBlock(line) == Bullet(line[2..])
  {
  }

  // ---------------------------------------------------------------------
  // What the parse of a whole text guarantees
  // ---------------------------------------------------------------------

  lemma {:induction false} BlankFromHere(ls: seq<Line>, i: nat)
    requires i <= |ls|
    requires forall k :: i <= k < |ls| ==> ls[k].BlankLine?
    ensures ParseFrom(ls, i) == Some([])
    decreases |ls| - i
  {
    if i < |ls| {
      BlankFromHere(ls, i + 1);
    }
  }

  /** A text whose lines are all whitespace gives an empty document. */
  lemma BlankLinesGiveNothing(content: string)
    requires forall k :: 0 <= k < |Split(content, '\n')| ==> AllSpace(Split(content, '\n')[k])
    ensures Parse(content) == Some([])
  {
    var lines := Split(content, '\n');
    var ls := Classified(lines);
    forall k | 0 <= k < |ls| ensures ls[k].BlankLine? {
      ClassifiedIndex(lines, k);
      ClassifyRule(lines[k]);
    }
    BlankFromHere(ls, 0);
  }

  /** The number of non-blank lines from `i` up to `j`. */
  function NonBlankIn(ls: seq<Line>, i: nat, j: nat): nat
    requires i <= j <= |ls|
    decreases j
  {
    if j == i then 0 else NonBlankIn(ls, i, j - 1) + (if ls[j - 1].BlankLine? then 0 else 1)
  }

  /** The number of table lines from `i` up to `j` whose row is dropped. */
  function DroppedIn(ls: seq<Line>, i: nat, j: nat): nat
    requires i <= j <= |ls|
    decreases j
  {
    if j == i then 0 else DroppedIn(ls, i, j - 1) + (if ls[j - 1].TableLine? && !ls[j - 1].kept then 1 else 0)
  }

  /** The lines a block accounts for: one per table row, one for any other block. */
  function Weight(blocks: seq<Block>): nat {
    if blocks == [] then 0 else (if blocks[0].Table? then |blocks[0].rows| else 1) + Weight(blocks[1..])
  }

  lemma {:induction false} CountsSplit(ls: seq<Line>, i: nat, j: nat, k: nat)
    requires i <= j <= k <= |ls|
    ensures NonBlankIn(ls, i, k) == NonBlankIn(ls, i, j) + NonBlankIn(ls, j, k)
    ensures DroppedIn(ls, i, k) == DroppedIn(ls, i, j) + DroppedIn(ls, j, k)
    decreases k
  {
    if k > j {
      CountsSplit(ls, i, j, k - 1);
    }
  }

  /** In a run of table lines every line is non-blank and gives either a kept or a dropped row. */
  lemma {:induction false} TableRunCounts(ls: seq<Line>, i: nat, j: nat)
    requires i <= j <= |ls|
    requires forall k :: i <= k < j ==> ls[k].TableLine?
    ensures |KeptRows(ls, i, j)| + DroppedIn(ls, i, j) == NonBlankIn(ls, i, j) == j - i
    decreases j
  {
    if j > i {
      TableRunCounts(ls, i, j - 1);
    }
  }

  lemma WeightCons(b: Block, rest: seq<Block>)
    ensures Weight([b] + rest) == (if b.Table? then |b.rows| else 1) + Weight(rest)
  {
    assert ([b] + rest)[1..] == rest;
  }

  /**
   * Every non-blank line is consumed exactly once: the lines that gave a
   * block or a kept table row, plus the dropped table rows, are all the
   * non-blank lines.
   */
  lemma {:induction false} LinesConsumedOnce(ls: seq<Line>, i: nat)
    requires i <= |ls| && ParseFrom(ls, i).Some? && TextIsNoTable(ls)
    ensures Weight(ParseFrom(ls, i).value) + DroppedIn(ls, i, |ls|) == NonBlankIn(ls, i, |ls|)
    decreases |ls| - i
  {
    var n := |ls|;
    if i < n {
      match ls[i]
      case BlankLine =>
        LinesConsumedOnce(ls, i + 1);
        CountsSplit(ls, i, i + 1, n);
      case TextLine(block) =>
        assert ParseFrom(ls, i) == Then([block], ParseFrom(ls, i + 1));
        LinesConsumedOnce(ls, i + 1);
        CountsSplit(ls, i, i + 1, n);
        WeightCons(block, ParseFrom(ls, i + 1).value);
      case TableLine(_, _) =>
        var j := TableEnd(ls, i);
        var rows := KeptRows(ls, i, j);
        LinesConsumedOnce(ls, j);
        CountsSplit(ls, i, j, n);
        TableEndMaximal(ls, i);
        TableRunCounts(ls, i, j);
        if rows != [] {
          WeightCons(Table(rows), ParseFrom(ls, j).value);
        }
    }
  }

  lemma {:induction false} NonBlankAtMost(ls: seq<Line>, i: nat, j: nat)
    requires i <= j <= |ls|
    ensures NonBlankIn(ls, i, j) <= j - i
    decreases j
  {
    if j > i {
      NonBlankAtMost(ls, i, j - 1);
    }
  }

  /** Every table of the document fits under its header row (and so has a row). */
  predicate TablesFitIn(blocks: seq<Block>) {
    forall k :: 0 <= k < |blocks| && blocks[k].Table? ==> Fits(blocks[k].rows)
  }

  lemma {:induction false} BlocksAtMostWeight(blocks: seq<Block>)
    requires TablesFitIn(blocks)
    ensures |blocks| <= Weight(blocks)
  {
    if blocks != [] {
      assert TablesFitIn(blocks[1..]) by {
        forall k | 0 <= k < |blocks[1..]| && blocks[1..][k].Table? ensures Fits(blocks[1..][k].rows) {
          assert blocks[1..][k] == blocks[k + 1];
        }
      }
      BlocksAtMostWeight(blocks[1..]);
    }
  }

  /** Every table of a document that was built fits under its header row. */
  lemma {:induction false} TablesFit(ls: seq<Line>, i: nat)
    requires i <= |ls| && ParseFrom(ls, i).Some? && TextIsNoTable(ls)
    ensures TablesFitIn(ParseFrom(ls, i).value)
    decreases |ls| - i
  {
    if i < |ls| {
      match ls[i]
      case BlankLine =>
        TablesFit(ls, i + 1);
      case TextLine(b) =>
        assert ParseFrom(ls, i) == Then([b], ParseFrom(ls, i + 1));
        TablesFit(ls, i + 1);
        var rest := ParseFrom(ls, i + 1).value;
        assert forall k :: 1 <= k < |[b] + rest| ==> ([b] + rest)[k] == rest[k - 1];
      case TableLine(_, _) =>
        var j := TableEnd(ls, i);
        TablesFit(ls, j);
        var rows := KeptRows(ls, i, j);
        if rows != [] {
          var rest := ParseFrom(ls, j).value;
          assert forall k :: 1 <= k < |[Table(rows)] + rest| ==> ([Table(rows)] + rest)[k] == rest[k - 1];
        }
    }
  }

  /** A document never has more blocks than the text has non-blank lines, nor more than it has lines. */
  lemma BlocksAtMostLines(content: string)
    requires Parse(content).Some?
    ensures var ls := Classified(Split(content, '\n'));
            |Parse(content).value| <= NonBlankIn(ls, 0, |ls|) <= |ls|
  {
    var ls := Classified(Split(content, '\n'));
    ClassifiedTextIsNoTable(Split(content, '\n'));
    LinesConsumedOnce(ls, 0);
    TablesFit(ls, 0);
    BlocksAtMostWeight(Parse(content).value);
    NonBlankAtMost(ls, 0, |ls|);
  }

  /** The rows kept from a run are rows that `Keep` accepts. */
  lemma {:induction false} KeptRowsKept(lines: seq<string>, i: nat, j: nat)
    requires i <= j <= |lines|
    ensures forall r :: 0 <= r < |KeptRows(Classified(lines), i, j)| ==> Keep(KeptRows(Classified(lines), i, j)[r])
    decreases j
  {
    if j > i {
      KeptRowsKept(lines, i, j - 1);
      ClassifiedIndex(lines, j - 1);
      ClassifyRule(lines[j - 1]);
    }
  }
}
