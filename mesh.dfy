/**
 * Reader for CARTO3 `.mesh` files (read_mesh.py). A file is a list of lines;
 * lines that open with `[Name]` start sections. The first section must be
 * `GeneralAttributes`, a block of `key = value` lines; every later section is
 * a whitespace-separated table whose first column is the row index and whose
 * second column is a literal `=`. The vertex and triangle sections yield the
 * mesh arrays. Cells are kept as the text tokens they are in the file.
 *
 * The specification is layered: each line and each section is first given a
 * meaning of its own (`ClassifyAttribute`, `SectionEffectOf`), and the file is
 * then a fold over those meanings (`ParseAttributes`, `Gather`).
 */
module MeshReader {
  import opened Common

  /** One table cell: a token, or the NaN pandas puts in a short row. */
  datatype Cell = Tok(text: string) | Missing

  datatype Triple = Triple(x: Cell, y: Cell, z: Cell)

  datatype VertexData = VertexData(positions: seq<Triple>, normals: seq<Triple>, groups: seq<Cell>)

  datatype TriangleData = TriangleData(faces: seq<Triple>, normals: seq<Triple>, groups: seq<Cell>)

  /**
   * The mesh handed back by `read_mesh_file`: a point cloud when the file has
   * no triangles, otherwise a triangle grid with per-cell normals and groups.
   */
  datatype Mesh = Mesh(header: map<string, string>, vertices: VertexData, triangles: Option<TriangleData>)

  datatype MeshError =
    | NotEnoughSections
    | AttributesNotFirst
    | BadAttributeLine(line: string)
    | TooManyFields(section: string)
    | NoHeaderRow(section: string)
    | NonContinuousIndex(section: string)
    | NoSeparatorColumn(section: string)
    | NoEqualitySign(section: string)
    | HeaderLengthMismatch(section: string)
    | MissingColumn(section: string, column: string)
    | DuplicateColumn(section: string, column: string)
    | NoVertices

  const GeneralAttributes := "GeneralAttributes"
  const VerticesSection := "VerticesSection"
  const TrianglesSection := "TrianglesSection"
  const VerticesAttributesSection := "VerticesAttributesSection"
  const NotAvailable := "N/A"

  // ---------------------------------------------------------------------------
  // Section headers: the pattern `\[(\S+)\]` matched at the start of a line

  /** `\[(\S+)\]` matches the start of `line` with the group ending just before `j`. */
  predicate HeaderMatchAt(line: string, j: int)
  {
    2 <= j < |line| && line[0] == '[' && line[j] == ']' &&
    forall k :: 1 <= k < j ==> !IsSpace(line[k])
  }

  /** The largest `j` in `[2, hi)` with `line[j] == ']'`. */
  function LastClose(line: string, hi: nat): (r: Option<nat>)
    requires hi <= |line|
    ensures r.Some? ==> 2 <= r.value < hi && line[r.value] == ']' &&
                        forall j :: r.value < j < hi ==> line[j] != ']'
    ensures r.None? ==> forall j :: 2 <= j < hi ==> line[j] != ']'
    decreases hi
  {
    if hi <= 2 then None
    else if line[hi - 1] == ']' then Some(hi - 1)
    else LastClose(line, hi - 1)
  }

  /**
   * The section name captured by `\[(\S+)\]`. The `\S+` is greedy, so the name
   * runs to the last `]` before the first whitespace.
   */
  function SectionName(line: string): Option<string>
  {
    if line == [] || line[0] != '[' then None
    else
      match LastClose(line, 1 + NonSpaceRun(line[1..]))
      case None => None
      case Some(j) => Some(line[1..j])
  }

  /** `SectionName` is the capture of the longest match of the header pattern. */
  lemma SectionNameMatches(line: string)
    ensures SectionName(line).Some? <==> exists j :: HeaderMatchAt(line, j)
    ensures SectionName(line).Some? ==>
      exists j :: HeaderMatchAt(line, j) && SectionName(line).value == line[1..j] &&
                  forall j' :: HeaderMatchAt(line, j') ==> j' <= j
  {
    if line != [] && line[0] == '[' {
      var e := 1 + NonSpaceRun(line[1..]);
      assert forall k :: 1 <= k < e ==> !IsSpace(line[k]) by {
        forall k | 1 <= k < e ensures !IsSpace(line[k]) { assert line[k] == line[1..][k - 1]; }
      }
      assert e < |line| ==> IsSpace(line[e]) by {
        if e < |line| { assert line[e] == line[1..][e - 1]; }
      }
      match LastClose(line, e)
      case None =>
      case Some(j) => assert HeaderMatchAt(line, j);
    }
  }

  /** Greedy capture, and the need for a non-empty name without spaces. */
  lemma SectionNameExamples()
    ensures SectionName("[ab]") == Some("ab")
    ensures SectionName("[a]b]") == Some("a]b")
    ensures SectionName("[]") == None
    ensures SectionName(" [X]") == None
  {
    assert "[ab]"[1..] == "ab]" && "ab]"[1..] == "b]" && "b]"[1..] == "]" && "]"[1..] == "";
    assert NonSpaceRun("b]") == 2;
    assert NonSpaceRun("ab]") == 3;
    assert LastClose("[ab]", 4) == Some(3);
    assert "[ab]"[1..3] == "ab";
    assert "[a]b]"[1..] == "a]b]" && "a]b]"[1..] == "]b]" && "]b]"[1..] == "b]";
    assert NonSpaceRun("]b]") == 3;
    assert NonSpaceRun("a]b]") == 4;
    assert LastClose("[a]b]", 5) == Some(4);
    assert "[a]b]"[1..4] == "a]b";
  }

  predicate IsSectionHeader(line: string)
  {
    SectionName(line).Some?
  }

  /** Which lines are section headers. */
  function HeaderFlags(lines: seq<string>): (flags: seq<bool>)
    ensures |flags| == |lines|
  {
    seq(|lines|, i requires 0 <= i < |lines| => IsSectionHeader(lines[i]))
  }

  /** Positions of the `true` entries, in order. */
  function Positions(flags: seq<bool>): (r: seq<nat>)
    ensures forall k :: 0 <= k < |r| ==> r[k] < |flags|
    ensures forall a, b :: 0 <= a < b < |r| ==> r[a] < r[b]
  {
    if flags == [] then []
    else
      var n := |flags| - 1;
      Positions(flags[..n]) + (if flags[n] then [n] else [])
  }

  /** `Positions` lists exactly the `true` entries. */
  lemma {:induction false} PositionsExact(flags: seq<bool>, i: nat)
    ensures i in Positions(flags) <==> i < |flags| && flags[i]
  {
    if flags != [] {
      var n := |flags| - 1;
      PositionsExact(flags[..n], i);
      if i < n { assert flags[..n][i] == flags[i]; }
    }
  }

  /** The positions of the section header lines, in file order. */
  function HeaderIndices(lines: seq<string>): (r: seq<nat>)
    ensures forall k :: 0 <= k < |r| ==> r[k] < |lines|
    ensures forall a, b :: 0 <= a < b < |r| ==> r[a] < r[b]
  {
    Positions(HeaderFlags(lines))
  }

  /** The header indices are exactly the lines that open a section. */
  lemma HeaderIndicesExact(lines: seq<string>, i: nat)
    ensures i in HeaderIndices(lines) <==> i < |lines| && IsSectionHeader(lines[i])
  {
    PositionsExact(HeaderFlags(lines), i);
  }

  // ---------------------------------------------------------------------------
  // GeneralAttributes: `key = value` lines

  /** Lines starting with `;` or with whitespace are not attribute lines. */
  predicate SkippedAttributeLine(line: string)
  {
    line != [] && (line[0] == ';' || IsSpace(line[0]))
  }

  /** The text before the first newline: what `.*` captures. */
  function UpToNewline(s: string): (r: string)
    ensures |r| <= |s| && r == s[..|r|] && '\n' !in r
    ensures |r| < |s| ==> s[|r|] == '\n'
  {
    if s == [] || s[0] == '\n' then [] else [s[0]] + UpToNewline(s[1..])
  }

  /** What one line of the attribute block means. */
  datatype AttributeLine = Skipped | Attribute(key: string, value: string) | Malformed(line: string)

  /**
   * A line of the attribute block: skipped when it starts with `;` or with
   * whitespace, otherwise it must match `(\S+)\s+=\s*(.*)` at its start. The
   * key is the maximal run of non-spaces (the `\S+` cannot give any back, as
   * `\s+` must follow), the value the rest of the line after the spaces that
   * follow `=`.
   */
  function ClassifyAttribute(line: string): (r: AttributeLine)
    ensures r.Skipped? <==> SkippedAttributeLine(line)
    ensures r.Attribute? ==> r.key != [] && (forall c :: c in r.key ==> !IsSpace(c)) &&
                             StartsWith(line, r.key) && '\n' !in r.value
    ensures r.Malformed? ==> r.line == line
  {
    if SkippedAttributeLine(line) then Skipped
    else
      var n := NonSpaceRun(line);
      var rest := line[n..];
      var m := SpaceRun(rest);
      if n == 0 || m == 0 || m >= |rest| || rest[m] != '=' then Malformed(line)
      else
        var after := rest[m + 1..];
        Attribute(line[..n], UpToNewline(after[SpaceRun(after)..]))
  }

  /** The meaning of each line of the attribute block. */
  function ClassifyLines(lines: seq<string>): (r: seq<AttributeLine>)
    ensures |r| == |lines| && forall i :: 0 <= i < |lines| ==> r[i] == ClassifyAttribute(lines[i])
  {
    seq(|lines|, i requires 0 <= i < |lines| => ClassifyAttribute(lines[i]))
  }

  /**
   * The `header` dictionary: the attribute lines applied one after the other,
   * a later duplicate key overwriting; the first malformed line is fatal.
   */
  function ParseAttributes(items: seq<AttributeLine>): Result<map<string, string>, MeshError>
  {
    if items == [] then Ok(map[])
    else
      var n := |items| - 1;
      match ParseAttributes(items[..n])
      case Err(e) => Err(e)
      case Ok(h) =>
        match items[n]
        case Skipped => Ok(h)
        case Malformed(l) => Err(BadAttributeLine(l))
        case Attribute(k, v) => Ok(h[k := v])
  }

  /** `items[i]` sets `key` and no later item sets it again. */
  predicate LastSetter(items: seq<AttributeLine>, i: int, key: string)
  {
    0 <= i < |items| && items[i].Attribute? && items[i].key == key &&
    forall j :: i < j < |items| ==> !(items[j].Attribute? && items[j].key == key)
  }

  /** The first malformed line. */
  predicate FirstMalformed(items: seq<AttributeLine>, i: int)
  {
    0 <= i < |items| && items[i].Malformed? && forall j :: 0 <= j < i ==> !items[j].Malformed?
  }

  /**
   * The attribute block fails exactly when it has a malformed line, with the
   * first such line as the error; otherwise the header maps each key to the
   * value of the last line that sets it, and has no other keys.
   */
  lemma {:induction false} AttributesLastWins(items: seq<AttributeLine>)
    ensures ParseAttributes(items).Err? <==> exists i :: 0 <= i < |items| && items[i].Malformed?
    ensures ParseAttributes(items).Err? ==>
      exists i :: FirstMalformed(items, i) && ParseAttributes(items).error == BadAttributeLine(items[i].line)
    ensures ParseAttributes(items).Ok? ==> forall key ::
      (key in ParseAttributes(items).value <==> exists i :: LastSetter(items, i, key)) &&
      (forall i :: LastSetter(items, i, key) ==> ParseAttributes(items).value[key] == items[i].value)
  {
    if items != [] {
      var n := |items| - 1;
      var pre := items[..n];
      AttributesLastWins(pre);
      assert forall i :: 0 <= i < n ==> pre[i] == items[i];
      if ParseAttributes(pre).Ok? && !items[n].Malformed? {
        var h := ParseAttributes(pre).value;
        var h' := ParseAttributes(items).value;
        forall key
          ensures key in h' <==> exists i :: LastSetter(items, i, key)
          ensures forall i :: LastSetter(items, i, key) ==> h'[key] == items[i].value
        {
          if items[n].Attribute? && items[n].key == key {
            assert LastSetter(items, n, key);
            forall i | LastSetter(items, i, key) ensures i == n { }
          } else {
            forall i | LastSetter(items, i, key) ensures LastSetter(pre, i, key) { }
            forall i | LastSetter(pre, i, key) ensures LastSetter(items, i, key) { }
          }
        }
      } else if ParseAttributes(pre).Ok? {
        assert FirstMalformed(items, n);
      } else {
        var i :| FirstMalformed(pre, i) && ParseAttributes(pre).error == BadAttributeLine(pre[i].line);
        assert FirstMalformed(items, i);
      }
    }
  }

  // ---------------------------------------------------------------------------
  // One table section (`read_section` and the checks around it)

  /** `l.strip().startswith(";")`. */
  predicate IsCommentLine(line: string)
  {
    StartsWith(Strip(line), ";")
  }

  /** Index of the first line that is not a comment. */
  function FirstNonComment(lines: seq<string>): (r: Option<nat>)
    ensures r.Some? ==> r.value < |lines| && !IsCommentLine(lines[r.value]) &&
                        forall k :: 0 <= k < r.value ==> IsCommentLine(lines[k])
    ensures r.None? ==> forall k :: 0 <= k < |lines| ==> IsCommentLine(lines[k])
  {
    var flags := seq(|lines|, k requires 0 <= k < |lines| => IsCommentLine(lines[k]));
    assert forall k :: 0 <= k < |lines| ==> (flags[k] <==> IsCommentLine(lines[k]));
    FirstFalse(flags)
  }

  /** The part of a line before the comment character `;`. */
  function BeforeComment(line: string): (r: string)
    ensures |r| <= |line| && r == line[..|r|] && ';' !in r
  {
    if line == [] || line[0] == ';' then [] else [line[0]] + BeforeComment(line[1..])
  }

  /** The tokens `read_csv(comment=";", sep="\s+")` finds on one line. */
  function LineTokens(line: string): seq<string>
  {
    Words(BeforeComment(line))
  }

  /** The data rows of a section: token lists of the lines that are not blank after comments. */
  function DataRows(lines: seq<string>): (rows: seq<seq<string>>)
    ensures forall k :: 0 <= k < |rows| ==> rows[k] != []
    ensures |rows| <= |lines|
  {
    if lines == [] then []
    else
      var n := |lines| - 1;
      DataRows(lines[..n]) + (if LineTokens(lines[n]) == [] then [] else [LineTokens(lines[n])])
  }

  /** Header names: the whitespace-separated words of a line, without `;`. */
  function HeaderNames(line: string): (names: seq<string>)
    ensures forall k :: 0 <= k < |names| ==> names[k] != ";" && names[k] != []
  {
    FilterSemicolons(Words(line))
  }

  function FilterSemicolons(ws: seq<string>): (r: seq<string>)
    requires forall k :: 0 <= k < |ws| ==> ws[k] != []
    ensures forall k :: 0 <= k < |r| ==> r[k] != ";" && r[k] != []
    ensures forall w :: w in r <==> w in ws && w != ";"
  {
    if ws == [] then []
    else (if ws[0] == ";" then [] else [ws[0]]) + FilterSemicolons(ws[1..])
  }

  /** A row of tokens padded with NaN up to `width` cells. */
  function PadRow(row: seq<string>, width: nat): (r: seq<Cell>)
    requires |row| <= width
    ensures |r| == width
    ensures forall k :: 0 <= k < |row| ==> r[k] == Tok(row[k])
    ensures forall k :: |row| <= k < width ==> r[k] == Missing
  {
    seq(width, k requires 0 <= k < width => if k < |row| then Tok(row[k]) else Missing)
  }

  /** What `read_section` gives back: an empty section, or the full table with the header names. */
  datatype RawSection = EmptySection | RawSection(cells: seq<seq<Cell>>, names: seq<string>)

  /** All rows have the same, positive, number of cells. */
  predicate RowsOfWidth(cells: seq<seq<Cell>>)
  {
    cells != [] && forall k :: 0 <= k < |cells| ==> |cells[k]| == |cells[0]| > 0
  }

  /**
   * `read_section`: tokenise the body, then take the header names from the
   * line just before the first line that is not a comment. The first row
   * fixes the number of columns; a longer row is a parser error.
   */
  function ReadSection(name: string, body: seq<string>): (r: Result<RawSection, MeshError>)
    ensures r.Ok? && r.value.RawSection? ==> RowsOfWidth(r.value.cells) && |r.value.cells| == |DataRows(body)|
  {
    var rows := DataRows(body);
    if rows == [] then Ok(EmptySection)
    else
      var width := |rows[0]|;
      if exists k :: 0 <= k < |rows| && |rows[k]| > width then Err(TooManyFields(name))
      else
        DataRowsHaveHeaderCandidate(body);
        var i := FirstNonComment(body).value;
        if i == 0 then Err(NoHeaderRow(name))
        else
          var cells := seq(|rows|, k requires 0 <= k < |rows| => PadRow(rows[k], width));
          Ok(RawSection(cells, HeaderNames(body[i - 1])))
  }

  /** Some character of `s` is not a space once `s` has a word. */
  lemma HasNonSpace(s: string)
    requires Words(s) != []
    ensures exists k :: 0 <= k < |s| && !IsSpace(s[k])
  {
    if forall k :: 0 <= k < |s| ==> IsSpace(s[k]) {
      forall c | c in s ensures IsSpace(c) {
        var k :| 0 <= k < |s| && s[k] == c;
      }
      WordsOfSpaces(s);
    }
  }

  /** The first character of `s.strip()` is the first non-space character of `s`. */
  lemma StripStart(s: string)
    ensures Strip(s) != [] <==> SpaceRun(s) < |s|
    ensures Strip(s) != [] ==> Strip(s)[0] == s[SpaceRun(s)]
  {
    var i := SpaceRun(s);
    var t := s[i..];
    var r := StripRight(t);
    if i < |s| {
      assert t[0] == s[i] && !IsSpace(t[0]);
      assert r != [];
      assert r[0] == t[0];
    }
  }

  /** A line that yields data tokens is not a comment line. */
  lemma TokensMeanNonComment(line: string)
    requires LineTokens(line) != []
    ensures !IsCommentLine(line)
  {
    var b := BeforeComment(line);
    HasNonSpace(b);
    var k :| 0 <= k < |b| && !IsSpace(b[k]);
    assert line[k] == b[k];
    StripStart(line);
    var i := SpaceRun(line);
    assert i <= k;
    assert line[i] == b[i];
    assert b[i] in b;
    var st := Strip(line);
    assert st[0] != ';';
    assert st[..1][0] == st[0];
  }

  /**
   * A body with data rows has a line that is not a comment, so the search for
   * the first non-comment line cannot come back empty.
   */
  lemma {:induction false} DataRowsHaveHeaderCandidate(body: seq<string>)
    requires DataRows(body) != []
    ensures FirstNonComment(body).Some?
  {
    var n := |body| - 1;
    if LineTokens(body[n]) != [] {
      TokensMeanNonComment(body[n]);
    } else {
      assert DataRows(body[..n]) != [];
      DataRowsHaveHeaderCandidate(body[..n]);
      var k := FirstNonComment(body[..n]).value;
      assert body[..n][k] == body[k];
    }
  }

  /**
   * The header names of a section come from the line just before its first
   * non-comment line; that line must not be the first one.
   */
  lemma HeaderNamesFromLineBeforeData(name: string, body: seq<string>)
    requires DataRows(body) != []
    requires forall k :: 0 <= k < |DataRows(body)| ==> |DataRows(body)[k]| <= |DataRows(body)[0]|
    ensures var r := ReadSection(name, body);
      exists i :: 0 <= i < |body| && !IsCommentLine(body[i]) && (forall k :: 0 <= k < i ==> IsCommentLine(body[k])) &&
        (i == 0 ==> r == Err(NoHeaderRow(name))) &&
        (i > 0 ==> r.Ok? && r.value.RawSection? && r.value.names == HeaderNames(body[i - 1]))
  {
    DataRowsHaveHeaderCandidate(body);
    var rows := DataRows(body);
    assert !exists k :: 0 <= k < |rows| && |rows[k]| > |rows[0]|;
    var i := FirstNonComment(body).value;
    assert !IsCommentLine(body[i]);
  }

  /** The section contents once the index and `=` columns are checked and dropped. */
  datatype SectionData = NoData | Data(names: seq<string>, rows: seq<seq<Cell>>)

  /** `Tok(text)` whose text is the decimal numeral of `i`. */
  predicate IndexCell(c: Cell, i: int)
  {
    c.Tok? && ParseInt(c.text) == Some(i)
  }

  /** `header_names` after the padding: `N/A` up to `count` names. */
  function PadNames(names: seq<string>, count: nat): (r: seq<string>)
    ensures |r| == if |names| < count then count else |names|
    ensures forall k :: 0 <= k < |names| ==> r[k] == names[k]
    ensures forall k :: |names| <= k < |r| ==> r[k] == NotAvailable
  {
    if |names| < count then names + seq(count - |names|, _ => NotAvailable) else names
  }

  /**
   * The checks `read_mesh_file` makes on a parsed section: the index column
   * counts 0..N-1, the second column is all `=`, the remaining columns are the
   * data, and the names are padded with `N/A` when there are too few of them.
   * The names must then fit the data, except in VerticesAttributesSection,
   * where they are not applied.
   */
  function CheckSection(name: string, raw: RawSection): (r: Result<SectionData, MeshError>)
    requires raw.RawSection? ==> RowsOfWidth(raw.cells)
  {
    match raw
    case EmptySection => Ok(NoData)
    case RawSection(cells, names) =>
      var width := |cells[0]|;
      if !ContinuousIndex(cells) then Err(NonContinuousIndex(name))
      else if width < 2 then Err(NoSeparatorColumn(name))
      else if !EqualsColumn(cells) then Err(NoEqualitySign(name))
      else
        var padded := PadNames(names, width - 2);
        if name != VerticesAttributesSection && |padded| != width - 2 then Err(HeaderLengthMismatch(name))
        else Ok(Data(padded, DataColumns(cells)))
  }

  /** The first column counts 0, 1, 2, ... down the rows. */
  predicate ContinuousIndex(cells: seq<seq<Cell>>)
    requires RowsOfWidth(cells)
  {
    forall i :: 0 <= i < |cells| ==> IndexCell(cells[i][0], i)
  }

  /** The second column holds `=` in every row. */
  predicate EqualsColumn(cells: seq<seq<Cell>>)
    requires RowsOfWidth(cells) && |cells[0]| >= 2
  {
    forall i :: 0 <= i < |cells| ==> cells[i][1] == Tok("=")
  }

  /** Every row without its index and `=` cells. */
  function DataColumns(cells: seq<seq<Cell>>): (rows: seq<seq<Cell>>)
    requires RowsOfWidth(cells) && |cells[0]| >= 2
    ensures |rows| == |cells| && forall i :: 0 <= i < |cells| ==> rows[i] == cells[i][2..]
  {
    seq(|cells|, i requires 0 <= i < |cells| => cells[i][2..])
  }

  /**
   * A checked section has a continuous index column and an `=` column, keeps
   * only the columns from the third one on, and has its names padded with
   * `N/A` to the number of data columns.
   */
  lemma CheckedSectionShape(name: string, raw: RawSection)
    requires raw.RawSection? && RowsOfWidth(raw.cells)
    requires CheckSection(name, raw).Ok?
    ensures var w := |raw.cells[0]|; w >= 2 && ContinuousIndex(raw.cells) && EqualsColumn(raw.cells)
    ensures var d := CheckSection(name, raw).value; var w := |raw.cells[0]|;
      d.Data? && d.rows == DataColumns(raw.cells) && d.names == PadNames(raw.names, w - 2) &&
      (name != VerticesAttributesSection ==> |d.names| == w - 2)
  {
  }

  /** The checks reject a section exactly when one of the source's assertions fails. */
  lemma CheckSectionFails(name: string, raw: RawSection)
    requires raw.RawSection? && RowsOfWidth(raw.cells)
    ensures var w := |raw.cells[0]|;
      CheckSection(name, raw).Err? <==>
        (exists i :: 0 <= i < |raw.cells| && !IndexCell(raw.cells[i][0], i)) ||
        w < 2 ||
        (exists i :: 0 <= i < |raw.cells| && raw.cells[i][1] != Tok("=")) ||
        (name != VerticesAttributesSection && |raw.names| > w - 2)
  {
    var cells := raw.cells;
    var w := |cells[0]|;
    CheckSectionErr(name, raw);
    assert !ContinuousIndex(cells) <==> exists i :: 0 <= i < |cells| && !IndexCell(cells[i][0], i);
    if w >= 2 {
      assert !EqualsColumn(cells) <==> exists i :: 0 <= i < |cells| && cells[i][1] != Tok("=");
    }
  }

  lemma CheckSectionErr(name: string, raw: RawSection)
    requires raw.RawSection? && RowsOfWidth(raw.cells)
    ensures var w := |raw.cells[0]|;
      CheckSection(name, raw).Err? <==>
        !ContinuousIndex(raw.cells) || w < 2 || !EqualsColumn(raw.cells) ||
        (name != VerticesAttributesSection && |raw.names| > w - 2)
  {
    var w := |raw.cells[0]|;
    if w >= 2 {
      assert |PadNames(raw.names, w - 2)| != w - 2 <==> |raw.names| > w - 2;
    }
  }

  /** Every data row has one cell per name. */
  predicate RowsFitNames(names: seq<string>, rows: seq<seq<Cell>>)
  {
    forall i :: 0 <= i < |rows| ==> |rows[i]| == |names|
  }

  /** Read and check the body of one section. */
  function ParseSection(name: string, body: seq<string>): (r: Result<SectionData, MeshError>)
    ensures r.Ok? && r.value.Data? && name != VerticesAttributesSection ==>
      RowsFitNames(r.value.names, r.value.rows) && |r.value.rows| == |DataRows(body)|
    ensures DataRows(body) == [] ==> r == Ok(NoData)
  {
    match ReadSection(name, body)
    case Err(e) => Err(e)
    case Ok(raw) => CheckSection(name, raw)
  }

  // ---------------------------------------------------------------------------
  // Column extraction (`read_vertices`, `read_tris`)

  function FirstIndex(names: seq<string>, x: string): (k: nat)
    ensures k <= |names| && (k < |names| <==> x in names)
    ensures k < |names| ==> names[k] == x && forall j :: 0 <= j < k ==> names[j] != x
  {
    if names == [] then 0 else if names[0] == x then 0 else 1 + FirstIndex(names[1..], x)
  }

  /** Exactly one column is called `x`. */
  predicate Once(names: seq<string>, x: string)
  {
    multiset(names)[x] == 1
  }

  /** The cell of `row` in the (first) column called `col`. */
  function CellOf(names: seq<string>, row: seq<Cell>, col: string): Cell
    requires |row| == |names| && col in names
  {
    row[FirstIndex(names, col)]
  }

  /**
   * `data[col]` where the columns are called `names`. A missing name is a
   * `KeyError`; a name held by several columns gives a frame of all of them,
   * which is an error here (see README).
   */
  function ColumnCells(section: string, names: seq<string>, rows: seq<seq<Cell>>, col: string): (r: Result<seq<Cell>, MeshError>)
    requires RowsFitNames(names, rows)
    ensures r.Ok? <==> Once(names, col)
    ensures r.Ok? ==> |r.value| == |rows| && forall i :: 0 <= i < |rows| ==> r.value[i] == CellOf(names, rows[i], col)
    ensures r.Err? ==> r.error == if col in names then DuplicateColumn(section, col) else MissingColumn(section, col)
  {
    var k := FirstIndex(names, col);
    if k == |names| then Err(MissingColumn(section, col))
    else if multiset(names)[col] > 1 then Err(DuplicateColumn(section, col))
    else Ok(seq(|rows|, i requires 0 <= i < |rows| => rows[i][k]))
  }

  /**
   * `np.stack([data[a], data[b], data[c]], axis=-1)`: the three columns are
   * looked up first, in order, and stacked only once all three are found; a
   * duplicated name then makes the shapes disagree.
   */
  function Stack3(section: string, names: seq<string>, rows: seq<seq<Cell>>, a: string, b: string, c: string): (r: Result<seq<Triple>, MeshError>)
    requires RowsFitNames(names, rows)
    ensures r.Ok? <==> Once(names, a) && Once(names, b) && Once(names, c)
    ensures r.Ok? ==> |r.value| == |rows| && forall i :: 0 <= i < |rows| ==>
      r.value[i] == Triple(CellOf(names, rows[i], a), CellOf(names, rows[i], b), CellOf(names, rows[i], c))
    ensures r.Err? && !(a in names && b in names && c in names) ==>
      r.error == MissingColumn(section, if a !in names then a else if b !in names then b else c)
    ensures r.Err? && a in names && b in names && c in names ==>
      r.error == DuplicateColumn(section, if !Once(names, a) then a else if !Once(names, b) then b else c)
  {
    if a !in names then Err(MissingColumn(section, a))
    else if b !in names then Err(MissingColumn(section, b))
    else if c !in names then Err(MissingColumn(section, c))
    else
      match ColumnCells(section, names, rows, a)
      case Err(e) => Err(e)
      case Ok(xs) =>
        match ColumnCells(section, names, rows, b)
        case Err(e) => Err(e)
        case Ok(ys) =>
          match ColumnCells(section, names, rows, c)
          case Err(e) => Err(e)
          case Ok(zs) => Ok(seq(|rows|, i requires 0 <= i < |rows| => Triple(xs[i], ys[i], zs[i])))
  }

  /** `read_vertices`: positions from X, Y, Z, normals from NormalX..NormalZ, groups from GroupID. */
  function ReadVertices(names: seq<string>, rows: seq<seq<Cell>>): (r: Result<VertexData, MeshError>)
    requires RowsFitNames(names, rows)
    ensures r.Ok? <==> Once(names, "X") && Once(names, "Y") && Once(names, "Z") && Once(names, "NormalX") &&
                       Once(names, "NormalY") && Once(names, "NormalZ") && Once(names, "GroupID")
    ensures r.Ok? ==> |r.value.positions| == |rows| && |r.value.normals| == |rows| && |r.value.groups| == |rows|
    ensures r.Ok? ==> forall i :: 0 <= i < |rows| ==>
      r.value.positions[i] == Triple(CellOf(names, rows[i], "X"), CellOf(names, rows[i], "Y"), CellOf(names, rows[i], "Z")) &&
      r.value.normals[i] == Triple(CellOf(names, rows[i], "NormalX"), CellOf(names, rows[i], "NormalY"), CellOf(names, rows[i], "NormalZ")) &&
      r.value.groups[i] == CellOf(names, rows[i], "GroupID")
  {
    match Stack3(VerticesSection, names, rows, "X", "Y", "Z")
    case Err(e) => Err(e)
    case Ok(pos) =>
      match Stack3(VerticesSection, names, rows, "NormalX", "NormalY", "NormalZ")
      case Err(e) => Err(e)
      case Ok(nrm) =>
        match ColumnCells(VerticesSection, names, rows, "GroupID")
        case Err(e) => Err(e)
        case Ok(g) => Ok(VertexData(pos, nrm, g))
  }

  /** `read_tris`: faces from Vertex0..Vertex2, normals from NormalX..NormalZ, groups from GroupID. */
  function ReadTris(names: seq<string>, rows: seq<seq<Cell>>): (r: Result<TriangleData, MeshError>)
    requires RowsFitNames(names, rows)
    ensures r.Ok? <==> Once(names, "Vertex0") && Once(names, "Vertex1") && Once(names, "Vertex2") && Once(names, "NormalX") &&
                       Once(names, "NormalY") && Once(names, "NormalZ") && Once(names, "GroupID")
    ensures r.Ok? ==> |r.value.faces| == |rows| && |r.value.normals| == |rows| && |r.value.groups| == |rows|
    ensures r.Ok? ==> forall i :: 0 <= i < |rows| ==>
      r.value.faces[i] == Triple(CellOf(names, rows[i], "Vertex0"), CellOf(names, rows[i], "Vertex1"), CellOf(names, rows[i], "Vertex2")) &&
      r.value.normals[i] == Triple(CellOf(names, rows[i], "NormalX"), CellOf(names, rows[i], "NormalY"), CellOf(names, rows[i], "NormalZ")) &&
      r.value.groups[i] == CellOf(names, rows[i], "GroupID")
  {
    match Stack3(TrianglesSection, names, rows, "Vertex0", "Vertex1", "Vertex2")
    case Err(e) => Err(e)
    case Ok(f) =>
      match Stack3(TrianglesSection, names, rows, "NormalX", "NormalY", "NormalZ")
      case Err(e) => Err(e)
      case Ok(nrm) =>
        match ColumnCells(TrianglesSection, names, rows, "GroupID")
        case Err(e) => Err(e)
        case Ok(g) => Ok(TriangleData(f, nrm, g))
  }

  // ---------------------------------------------------------------------------
  // What one section does to the mesh being gathered

  datatype SectionEffect = Failed(error: MeshError) | Skip | SetVertices(v: VertexData) | SetTriangles(t: TriangleData)

  /**
   * One pass of the section loop: parse and check the section, then hand the
   * data to `read_vertices` or `read_tris` by the section's name. Empty
   * sections and sections of any other name have no effect.
   */
  function SectionEffectOf(name: string, body: seq<string>): (r: SectionEffect)
    ensures DataRows(body) == [] ==> r == Skip
    ensures r.SetVertices? ==>
      name == VerticesSection && |r.v.positions| == |DataRows(body)| && |r.v.normals| == |DataRows(body)| && |r.v.groups| == |DataRows(body)|
    ensures r.SetTriangles? ==>
      name == TrianglesSection && |r.t.faces| == |DataRows(body)| && |r.t.normals| == |DataRows(body)| && |r.t.groups| == |DataRows(body)|
  {
    match ParseSection(name, body)
    case Err(e) => Failed(e)
    case Ok(NoData) => Skip
    case Ok(Data(names, rows)) => DataEffect(name, names, rows)
  }

  /** A section with data: vertices and triangles are read from their columns, any other section is skipped. */
  function DataEffect(name: string, names: seq<string>, rows: seq<seq<Cell>>): (r: SectionEffect)
    requires name == VerticesSection || name == TrianglesSection ==> RowsFitNames(names, rows)
    ensures r.SetVertices? ==>
      name == VerticesSection && |r.v.positions| == |rows| && |r.v.normals| == |rows| && |r.v.groups| == |rows|
    ensures r.SetTriangles? ==>
      name == TrianglesSection && |r.t.faces| == |rows| && |r.t.normals| == |rows| && |r.t.groups| == |rows|
  {
    if name == VerticesSection then
      match ReadVertices(names, rows)
      case Err(e) => Failed(e)
      case Ok(v) => SetVertices(v)
    else if name == TrianglesSection then
      match ReadTris(names, rows)
      case Err(e) => Failed(e)
      case Ok(t) => SetTriangles(t)
    else Skip
  }

  /** What the section loop has gathered so far. */
  datatype MeshState = MeshState(vertices: Option<VertexData>, triangles: Option<TriangleData>)

  /** One section's effect on the gathered state. */
  function Apply(st: MeshState, effect: SectionEffect): Result<MeshState, MeshError>
  {
    match effect
    case Failed(e) => Err(e)
    case Skip => Ok(st)
    case SetVertices(v) => Ok(st.(vertices := Some(v)))
    case SetTriangles(t) => Ok(st.(triangles := Some(t)))
  }

  /** The section loop: apply the effects in file order; the first failure ends it. */
  function Gather(effects: seq<SectionEffect>): Result<MeshState, MeshError>
  {
    if effects == [] then Ok(MeshState(None, None))
    else
      var n := |effects| - 1;
      match Gather(effects[..n])
      case Err(e) => Err(e)
      case Ok(st) => Apply(st, effects[n])
  }

  predicate LastVerticesAt(effects: seq<SectionEffect>, k: int)
  {
    0 <= k < |effects| && effects[k].SetVertices? &&
    forall j :: k < j < |effects| ==> !effects[j].SetVertices?
  }

  predicate LastTrianglesAt(effects: seq<SectionEffect>, k: int)
  {
    0 <= k < |effects| && effects[k].SetTriangles? &&
    forall j :: k < j < |effects| ==> !effects[j].SetTriangles?
  }

  predicate FirstFailureAt(effects: seq<SectionEffect>, k: int)
  {
    0 <= k < |effects| && effects[k].Failed? && forall j :: 0 <= j < k ==> !effects[j].Failed?
  }

  /** The loop fails exactly when a section fails, with the error of the first failing one. */
  lemma {:induction false} GatherFirstFailure(effects: seq<SectionEffect>)
    ensures Gather(effects).Err? <==> exists k :: 0 <= k < |effects| && effects[k].Failed?
    ensures Gather(effects).Err? ==>
      exists k :: FirstFailureAt(effects, k) && Gather(effects).error == effects[k].error
  {
    if effects != [] {
      var n := |effects| - 1;
      var pre := effects[..n];
      GatherFirstFailure(pre);
      assert forall k :: 0 <= k < n ==> pre[k] == effects[k];
      if Gather(pre).Ok? {
        if effects[n].Failed? {
          assert FirstFailureAt(effects, n);
        }
      } else {
        var k :| FirstFailureAt(pre, k) && Gather(pre).error == pre[k].error;
        assert FirstFailureAt(effects, k);
      }
    }
  }

  /**
   * When the loop succeeds, the vertex arrays are those of the last vertex
   * section with data, the triangle arrays those of the last triangle section
   * with data, and each is absent when no such section exists.
   */
  lemma {:induction false} GatherLastWins(effects: seq<SectionEffect>)
    requires Gather(effects).Ok?
    ensures var st := Gather(effects).value;
      (st.vertices.None? <==> forall k :: 0 <= k < |effects| ==> !effects[k].SetVertices?) &&
      (forall k :: LastVerticesAt(effects, k) ==> st.vertices == Some(effects[k].v)) &&
      (st.triangles.None? <==> forall k :: 0 <= k < |effects| ==> !effects[k].SetTriangles?) &&
      (forall k :: LastTrianglesAt(effects, k) ==> st.triangles == Some(effects[k].t))
  {
    if effects != [] {
      var n := |effects| - 1;
      var pre := effects[..n];
      assert Gather(pre).Ok?;
      GatherLastWins(pre);
      assert forall k :: 0 <= k < n ==> pre[k] == effects[k];
      forall k | LastVerticesAt(effects, k) && k < n ensures LastVerticesAt(pre, k) { }
      forall k | LastTrianglesAt(effects, k) && k < n ensures LastTrianglesAt(pre, k) { }
    }
  }

  // ---------------------------------------------------------------------------
  // The whole file

  /** Section starts inside the file, in increasing order. */
  predicate SectionBounds(lines: seq<string>, starts: seq<nat>)
  {
    (forall k :: 0 <= k < |starts| ==> starts[k] < |lines|) &&
    forall a, b :: 0 <= a < b < |starts| ==> starts[a] < starts[b]
  }

  /** Lines of section `k` after its header line, up to the next header or the end of the file. */
  function SectionBody(lines: seq<string>, starts: seq<nat>, k: nat): (body: seq<string>)
    requires SectionBounds(lines, starts) && k < |starts|
  {
    var next := if k + 1 < |starts| then starts[k + 1] else |lines|;
    lines[starts[k] + 1..next]
  }

  function SectionNameAt(lines: seq<string>, starts: seq<nat>, k: nat): string
    requires SectionBounds(lines, starts) && k < |starts|
  {
    match SectionName(lines[starts[k]])
    case None => ""
    case Some(n) => n
  }

  /** The effect of every section after the first, in file order. */
  function Effects(lines: seq<string>, starts: seq<nat>): (r: seq<SectionEffect>)
    requires SectionBounds(lines, starts) && |starts| >= 1
    ensures |r| == |starts| - 1
  {
    EffectsOf(Sections(lines, starts))
  }

  /** The name and body of every section after the first, in file order. */
  function Sections(lines: seq<string>, starts: seq<nat>): (secs: seq<(string, seq<string>)>)
    requires SectionBounds(lines, starts) && |starts| >= 1
    ensures |secs| == |starts| - 1
    ensures forall k :: 0 <= k < |secs| ==> secs[k] == (SectionNameAt(lines, starts, k + 1), SectionBody(lines, starts, k + 1))
  {
    seq(|starts| - 1, k requires 0 <= k < |starts| - 1 => (SectionNameAt(lines, starts, k + 1), SectionBody(lines, starts, k + 1)))
  }

  /** The effect of each section, in order. */
  function EffectsOf(secs: seq<(string, seq<string>)>): (r: seq<SectionEffect>)
    ensures |r| == |secs|
  {
    if secs == [] then [] else [SectionEffectOf(secs[0].0, secs[0].1)] + EffectsOf(secs[1..])
  }

  lemma {:induction false} EffectsOfAt(secs: seq<(string, seq<string>)>, k: nat)
    requires k < |secs|
    ensures EffectsOf(secs)[k] == SectionEffectOf(secs[k].0, secs[k].1)
    decreases k
  {
    if k > 0 {
      EffectsOfAt(secs[1..], k - 1);
    }
  }

  /** Effect `k` is that of section `k + 1`, the sections after the attribute block being numbered from 1. */
  lemma EffectsAt(lines: seq<string>, starts: seq<nat>, k: nat)
    requires SectionBounds(lines, starts) && k < |starts| - 1
    ensures Effects(lines, starts)[k] == SectionEffectOf(SectionNameAt(lines, starts, k + 1), SectionBody(lines, starts, k + 1))
  {
    EffectsOfAt(Sections(lines, starts), k);
  }

  /** The lines of the attribute block: between the first and the second header. */
  function AttributeBlock(lines: seq<string>, starts: seq<nat>): seq<string>
    requires SectionBounds(lines, starts) && |starts| >= 2
  {
    lines[starts[0] + 1..starts[1]]
  }

  /** `read_mesh_file` on the lines of a file. */
  function ReadMesh(lines: seq<string>): (r: Result<Mesh, MeshError>)
  {
    var starts := HeaderIndices(lines);
    if |starts| <= 1 then Err(NotEnoughSections)
    else if SectionName(lines[starts[0]]) != Some(GeneralAttributes) then Err(AttributesNotFirst)
    else MeshOf(ParseAttributes(ClassifyLines(AttributeBlock(lines, starts))), Gather(Effects(lines, starts)))
  }

  /** The end of `read_mesh_file`: the attribute error first, then a section error, then the vertex check. */
  function MeshOf(header: Result<map<string, string>, MeshError>, st: Result<MeshState, MeshError>): (r: Result<Mesh, MeshError>)
    ensures r.Ok? <==> header.Ok? && st.Ok? && st.value.vertices.Some?
    ensures r.Ok? ==> r.value == Mesh(header.value, st.value.vertices.value, st.value.triangles)
    ensures header.Err? ==> r == Err(header.error)
    ensures header.Ok? && st.Err? ==> r == Err(st.error)
    ensures header.Ok? && st.Ok? && st.value.vertices.None? ==> r == Err(NoVertices)
  {
    match header
    case Err(e) => Err(e)
    case Ok(h) =>
      match st
      case Err(e) => Err(e)
      case Ok(s) =>
        if s.vertices.None? then Err(NoVertices)
        else Ok(Mesh(h, s.vertices.value, s.triangles))
  }

  /**
   * A file is read when it has at least two headers, the first one being
   * GeneralAttributes, no malformed attribute line, no failing section and a
   * vertex section with data. The mesh then has the attributes of the block,
   * the vertices of the last vertex section with data and the triangles of the
   * last triangle section with data, if any.
   */
  lemma ReadMeshSpec(lines: seq<string>)
    ensures var starts := HeaderIndices(lines);
      ReadMesh(lines).Ok? <==>
        |starts| >= 2 && SectionName(lines[starts[0]]) == Some(GeneralAttributes) &&
        (forall i :: 0 <= i < |AttributeBlock(lines, starts)| ==> !ClassifyAttribute(AttributeBlock(lines, starts)[i]).Malformed?) &&
        (forall k :: 0 <= k < |starts| - 1 ==> !Effects(lines, starts)[k].Failed?) &&
        (exists k :: 0 <= k < |starts| - 1 && Effects(lines, starts)[k].SetVertices?)
    ensures var starts := HeaderIndices(lines);
      ReadMesh(lines).Ok? ==>
        var m := ReadMesh(lines).value; var effs := Effects(lines, starts);
        m.header == ParseAttributes(ClassifyLines(AttributeBlock(lines, starts))).value &&
        (forall k :: LastVerticesAt(effs, k) ==> m.vertices == effs[k].v) &&
        (m.triangles.None? <==> forall k :: 0 <= k < |effs| ==> !effs[k].SetTriangles?) &&
        (forall k :: LastTrianglesAt(effs, k) ==> m.triangles == Some(effs[k].t))
  {
    var starts := HeaderIndices(lines);
    if |starts| >= 2 {
      var items := ClassifyLines(AttributeBlock(lines, starts));
      AttributesLastWins(items);
      GatherFirstFailure(Effects(lines, starts));
      if Gather(Effects(lines, starts)).Ok? {
        GatherLastWins(Effects(lines, starts));
      }
    }
  }

  /** Without any vertex section that has data the read fails. */
  lemma NoVerticesIsFatal(lines: seq<string>)
    requires |HeaderIndices(lines)| >= 2
    requires SectionName(lines[HeaderIndices(lines)[0]]) == Some(GeneralAttributes)
    requires ParseAttributes(ClassifyLines(AttributeBlock(lines, HeaderIndices(lines)))).Ok?
    requires Gather(Effects(lines, HeaderIndices(lines))).Ok?
    requires forall k :: 0 <= k < |HeaderIndices(lines)| - 1 ==> !Effects(lines, HeaderIndices(lines))[k].SetVertices?
    ensures ReadMesh(lines) == Err(NoVertices)
  {
    GatherLastWins(Effects(lines, HeaderIndices(lines)));
  }

  // ---------------------------------------------------------------------------
  // The imperative reader

  /** Collect the header line positions in one pass over the file. */
  method FindSectionHeaders(lines: seq<string>) returns (starts: seq<nat>)
    ensures starts == HeaderIndices(lines)
  {
    ghost var flags := HeaderFlags(lines);
    starts := [];
    var i := 0;
    while i < |lines|
      invariant 0 <= i <= |lines|
      invariant starts == Positions(flags[..i])
    {
      assert flags[..i + 1][..i] == flags[..i];
      if IsSectionHeader(lines[i]) {
        starts := starts + [i];
      }
      i := i + 1;
    }
    assert flags[..i] == flags;
  }

  /** The attribute loop over the lines of the GeneralAttributes block. */
  method ReadAttributes(lines: seq<string>) returns (r: Result<map<string, string>, MeshError>)
    ensures r == ParseAttributes(ClassifyLines(lines))
  {
    ghost var items := ClassifyLines(lines);
    var header: map<string, string> := map[];
    var i := 0;
    while i < |lines|
      invariant 0 <= i <= |lines|
      invariant ParseAttributes(items[..i]) == Ok(header)
    {
      assert items[..i + 1][..i] == items[..i];
      var line := lines[i];
      match ClassifyAttribute(line) {
        case Skipped =>
        case Malformed(l) =>
          ParseAttributesErrSticky(items, i + 1);
          return Err(BadAttributeLine(l));
        case Attribute(key, value) =>
          header := header[key := value];
      }
      i := i + 1;
    }
    assert items[..i] == items;
    return Ok(header);
  }

  /** Once a prefix fails, the whole block fails with the same error. */
  lemma {:induction false} ParseAttributesErrSticky(items: seq<AttributeLine>, i: nat)
    requires i <= |items| && ParseAttributes(items[..i]).Err?
    ensures ParseAttributes(items) == ParseAttributes(items[..i])
    decreases |items| - i
  {
    if i < |items| {
      assert items[..i + 1][..i] == items[..i];
      ParseAttributesErrSticky(items, i + 1);
    } else {
      assert items[..i] == items;
    }
  }

  /** Once a prefix of the sections fails, the loop fails with the same error. */
  lemma {:induction false} GatherErrSticky(effects: seq<SectionEffect>, i: nat)
    requires i <= |effects| && Gather(effects[..i]).Err?
    ensures Gather(effects) == Gather(effects[..i])
    decreases |effects| - i
  {
    if i < |effects| {
      assert effects[..i + 1][..i] == effects[..i];
      GatherErrSticky(effects, i + 1);
    } else {
      assert effects[..i] == effects;
    }
  }

  /**
   * The body of the section loop: parse and check one section, then reassign
   * the vertex or triangle arrays from it.
   */
  method RunSection(name: string, body: seq<string>, vertices: Option<VertexData>, triangles: Option<TriangleData>)
    returns (r: Result<MeshState, MeshError>)
    ensures r == Apply(MeshState(vertices, triangles), SectionEffectOf(name, body))
  {
    var sec := ParseSection(name, body);
    if sec.Err? {
      return Err(sec.error);
    }
    if sec.value.NoData? {
      return Ok(MeshState(vertices, triangles));
    }
    r := RunData(name, sec.value.names, sec.value.rows, vertices, triangles);
  }

  /** The reassignment of the vertex or triangle arrays from a section with data. */
  method RunData(name: string, names: seq<string>, rows: seq<seq<Cell>>, vertices: Option<VertexData>, triangles: Option<TriangleData>)
    returns (r: Result<MeshState, MeshError>)
    requires name == VerticesSection || name == TrianglesSection ==> RowsFitNames(names, rows)
    ensures r == Apply(MeshState(vertices, triangles), DataEffect(name, names, rows))
  {
    if name == VerticesSection {
      var v := ReadVertices(names, rows);
      if v.Err? {
        return Err(v.error);
      }
      return Ok(MeshState(Some(v.value), triangles));
    } else if name == TrianglesSection {
      var t := ReadTris(names, rows);
      if t.Err? {
        return Err(t.error);
      }
      return Ok(MeshState(vertices, Some(t.value)));
    }
    return Ok(MeshState(vertices, triangles));
  }

  /** One more pass of the section loop. */
  lemma GatherNext(effs: seq<SectionEffect>, n: nat, st: MeshState)
    requires n < |effs| && Gather(effs[..n]) == Ok(st)
    ensures Gather(effs[..n + 1]) == Apply(st, effs[n])
  {
    assert effs[..n + 1][..n] == effs[..n];
  }

  /** The section loop of `read_mesh_file`, over every section after the first. */
  method GatherSections(lines: seq<string>, starts: seq<nat>) returns (r: Result<MeshState, MeshError>)
    requires SectionBounds(lines, starts) && |starts| >= 1
    ensures r == Gather(Effects(lines, starts))
  {
    ghost var effs := Effects(lines, starts);
    var vertices: Option<VertexData> := None;
    var triangles: Option<TriangleData> := None;
    var i := 1;
    while i < |starts|
      invariant 1 <= i <= |starts|
      invariant Gather(effs[..i - 1]) == Ok(MeshState(vertices, triangles))
    {
      var name := SectionNameAt(lines, starts, i);
      var body := SectionBody(lines, starts, i);
      EffectsAt(lines, starts, i - 1);
      GatherNext(effs, i - 1, MeshState(vertices, triangles));
      var next := RunSection(name, body, vertices, triangles);
      if next.Err? {
        GatherErrSticky(effs, i);
        return Err(next.error);
      }
      vertices, triangles := next.value.vertices, next.value.triangles;
      i := i + 1;
    }
    assert effs[..i - 1] == effs;
    return Ok(MeshState(vertices, triangles));
  }

  /**
   * `read_mesh_file`: find the sections, read the attributes, then walk the
   * table sections in order, reassigning the vertex and triangle arrays.
   */
  method ReadMeshFile(lines: seq<string>) returns (r: Result<Mesh, MeshError>)
    ensures r == ReadMesh(lines)
  {
    var starts := FindSectionHeaders(lines);
    if |starts| <= 1 {
      return Err(NotEnoughSections);
    }
    if SectionName(lines[starts[0]]) != Some(GeneralAttributes) {
      return Err(AttributesNotFirst);
    }
    r := ReadSections(lines, starts);
  }

  /** After the header checks: the attribute block, then the section loop, then the vertex check. */
  method ReadSections(lines: seq<string>, starts: seq<nat>) returns (r: Result<Mesh, MeshError>)
    requires SectionBounds(lines, starts) && |starts| >= 2
    ensures r == MeshOf(ParseAttributes(ClassifyLines(AttributeBlock(lines, starts))), Gather(Effects(lines, starts)))
  {
    var hdr := ReadAttributes(lines[starts[0] + 1..starts[1]]);
    if hdr.Err? {
      return Err(hdr.error);
    }
    var st := GatherSections(lines, starts);
    if st.Err? {
      return Err(st.error);
    }
    if st.value.vertices.None? {
      return Err(NoVertices);
    }
    return Ok(Mesh(hdr.value, st.value.vertices.value, st.value.triangles));
  }
}
