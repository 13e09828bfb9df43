/**
 * The visitag telemetry files: the key=value fallback parser that is used
 * when a file is not tabular, the per-file fallback, the sequential
 * collection of all results and the directory scan that keys them by file
 * stem. File contents and the directory walk are inputs of the model.
 */
module Visitags {
  import opened Common
  import opened Tables

  /** A converted value of a `key= value` line. */
  datatype MiscValue = IntValue(i: int) | FloatValue(x: real) | WordValue(s: string)

  /** The three patterns, tried in this order (`int`, `float`, `str`). */
  datatype Pattern = IntPattern | FloatPattern | WordPattern

  const Patterns: seq<Pattern> := [IntPattern, FloatPattern, WordPattern]

  // ---------------------------------------------------------------------------
  // One line

  /**
   * The head `^\s+(\w+)=\s+` the three patterns share: the key and the
   * position where the value starts. Whitespace and word characters are
   * disjoint, so every greedy run is the only one that can match.
   */
  function Head(line: string): (r: Option<(string, nat)>)
    ensures r.Some? ==> r.value.1 <= |line|
  {
    var a := SpaceRun(line);
    if a == 0 then None else KeyHead(line[a..], a)
  }

  /**
   * The head after its leading whitespace, which ends at offset `a` of the
   * line: `(\w+)=\s+` at the start of `s`.
   */
  function KeyHead(s: string, a: nat): (r: Option<(string, nat)>)
    ensures r.Some? ==> r.value.1 <= a + |s|
  {
    var n := WordRun(s);
    if n == 0 || n >= |s| || s[n] != '=' then None
    else
      var b := SpaceRun(s[n + 1..]);
      if b == 0 then None else Some((s[..n], a + n + 1 + b))
  }

  /** `-?\d+` at the start of `v`, not anchored at its end: `int` of the matched text. */
  function IntToken(v: string): (r: Option<int>)
  {
    var s := SignLength(v);
    var n := DigitRun(v[s..]);
    if n == 0 then None
    else
      var m: int := DigitsValue(v[s..][..n]);
      Some(if s == 1 then -m else m)
  }

  /** `-?\d+\.\d+` at the start of `v`: `float` of the matched text. */
  function FloatToken(v: string): (r: Option<real>)
  {
    var s := SignLength(v);
    var t := v[s..];
    var n := DigitRun(t);
    if n == 0 || n >= |t| || t[n] != '.' then None
    else
      var m := DigitRun(t[n + 1..]);
      if m == 0 then None
      else
        var x := DigitsValue(t[..n]) as real + DigitsValue(t[n + 1..][..m]) as real / Pow10(m) as real;
        Some(if s == 1 then -x else x)
  }

  /** `\w+` at the start of `v`: the matched text. */
  function WordToken(v: string): (r: Option<string>)
    ensures r.Some? ==> r.value != [] && forall k :: 0 <= k < |r.value| ==> IsWordChar(r.value[k])
  {
    var n := WordRun(v);
    if n == 0 then None else Some(v[..n])
  }

  /** `re_try.match(line)` followed by the conversion of the value group. */
  function TryPattern(p: Pattern, line: string): (r: Option<(string, MiscValue)>)
    ensures r.Some? ==> Head(line).Some? && r.value.0 == Head(line).value.0
  {
    match Head(line)
    case None => None
    case Some((key, q)) =>
      var v := line[q..];
      match p
      case IntPattern => (match IntToken(v) case None => None case Some(i) => Some((key, IntValue(i))))
      case FloatPattern => (match FloatToken(v) case None => None case Some(x) => Some((key, FloatValue(x))))
      case WordPattern => (match WordToken(v) case None => None case Some(w) => Some((key, WordValue(w))))
  }

  /** The first of the patterns in `ps` that matches `line`. */
  function FirstMatch(ps: seq<Pattern>, line: string): (r: Option<(string, MiscValue)>)
  {
    if ps == [] then None
    else if TryPattern(ps[0], line).Some? then TryPattern(ps[0], line)
    else FirstMatch(ps[1..], line)
  }

  /** A line's entry: the first of the three patterns that matches. */
  function ClassifyLine(line: string): (r: Option<(string, MiscValue)>)
  {
    FirstMatch(Patterns, line)
  }

  /**
   * The shared head matches only lines of the shape `key= value`: leading
   * whitespace, a non-empty key of word characters, `=` right after it and
   * whitespace right after that. Every pattern's key is the head's key.
   */
  lemma HeadShape(line: string)
    requires Head(line).Some?
    ensures var key := Head(line).value.0;
      var a := SpaceRun(line);
      1 <= a && a + |key| + 1 < |line| && key != [] &&
      (forall k :: 0 <= k < |key| ==> line[a + k] == key[k] && IsWordChar(key[k])) &&
      line[a + |key|] == '=' && IsSpace(line[a + |key| + 1])
  {
    HeadKey(line);
    HeadSeparator(line);
  }

  /**
   * The converse of `HeadShape`: a line made of whitespace, a key of word
   * characters, `=`, whitespace and then a value that does not start with
   * whitespace has that key as its head, and its value starts right after
   * the second run of whitespace.
   */
  lemma HeadOfShape(ws: string, key: string, ws2: string, rest: string)
    requires ws != [] && forall k :: 0 <= k < |ws| ==> IsSpace(ws[k])
    requires key != [] && forall k :: 0 <= k < |key| ==> IsWordChar(key[k])
    requires ws2 != [] && forall k :: 0 <= k < |ws2| ==> IsSpace(ws2[k])
    requires rest == [] || !IsSpace(rest[0])
    ensures Head(ws + key + "=" + ws2 + rest) == Some((key, |ws| + |key| + 1 + |ws2|))
  {
    var after := key + "=" + ws2 + rest;
    assert ws + key + "=" + ws2 + rest == ws + after;
    HeadAfterSpaces(ws, after);
    KeyHeadOfShape(key, ws2, rest, |ws|);
  }

  /** After a run of whitespace that ends before a word character, the head is `KeyHead` of the rest. */
  lemma HeadAfterSpaces(ws: string, s: string)
    requires ws != [] && forall k :: 0 <= k < |ws| ==> IsSpace(ws[k])
    requires s != [] && IsWordChar(s[0])
    ensures Head(ws + s) == KeyHead(s, |ws|)
  {
    SpaceRunOf(ws, s);
    assert (ws + s)[|ws|..] == s;
  }

  /** `KeyHead` on a key of word characters, `=`, whitespace and a value. */
  lemma KeyHeadOfShape(key: string, ws2: string, rest: string, a: nat)
    requires key != [] && forall k :: 0 <= k < |key| ==> IsWordChar(key[k])
    requires ws2 != [] && forall k :: 0 <= k < |ws2| ==> IsSpace(ws2[k])
    requires rest == [] || !IsSpace(rest[0])
    ensures KeyHead(key + "=" + ws2 + rest, a) == Some((key, a + |key| + 1 + |ws2|))
  {
    var s := key + "=" + ws2 + rest;
    assert s == key + ("=" + ws2 + rest);
    WordRunOf(key, "=" + ws2 + rest);
    var n := |key|;
    assert s[n] == '=';
    assert s[n + 1..] == ws2 + rest;
    SpaceRunOf(ws2, rest);
    assert s[..n] == key;
  }

  /** The head's key is the non-empty run of word characters right after the leading whitespace. */
  lemma HeadKey(line: string)
    requires Head(line).Some?
    ensures var key := Head(line).value.0;
      var a := SpaceRun(line);
      1 <= a && a + |key| < |line| && key != [] &&
      forall k :: 0 <= k < |key| ==> line[a + k] == key[k] && IsWordChar(key[k])
  {
  }

  /** The head's key is followed by `=` and then by whitespace. */
  lemma HeadSeparator(line: string)
    requires Head(line).Some?
    ensures var key := Head(line).value.0;
      var a := SpaceRun(line);
      a + |key| + 1 < |line| && line[a + |key|] == '=' && IsSpace(line[a + |key| + 1])
  {
    var a := SpaceRun(line);
    var s := line[a..];
    var n := WordRun(s);
    assert IsSpace(s[n + 1..][0]);
  }

  /** The patterns are tried in the order integer, float, word. */
  lemma ClassifyOrder(line: string)
    ensures ClassifyLine(line) ==
      if TryPattern(IntPattern, line).Some? then TryPattern(IntPattern, line)
      else if TryPattern(FloatPattern, line).Some? then TryPattern(FloatPattern, line)
      else TryPattern(WordPattern, line)
  {
    var ps := Patterns;
    assert ps[0] == IntPattern;
    assert ps[1..] == [FloatPattern, WordPattern];
    assert ps[1..][1..] == [WordPattern];
    assert ps[1..][1..][1..] == [];
    assert FirstMatch(ps[1..][1..], line) == TryPattern(WordPattern, line) by {
      assert FirstMatch(ps[1..][1..][1..], line) == None;
    }
    assert FirstMatch(ps[1..], line) ==
      if TryPattern(FloatPattern, line).Some? then TryPattern(FloatPattern, line)
      else TryPattern(WordPattern, line);
  }

  /**
   * The float pattern only matches where the integer pattern, which is not
   * anchored at its end, already matches the same key.
   */
  lemma FloatImpliesInt(line: string)
    requires TryPattern(FloatPattern, line).Some?
    ensures TryPattern(IntPattern, line).Some?
    ensures TryPattern(IntPattern, line).value.0 == TryPattern(FloatPattern, line).value.0
  {
  }

  /** So the float branch is unreachable: no line is ever stored as a float. */
  lemma NeverFloat(line: string)
    ensures ClassifyLine(line).Some? ==> !ClassifyLine(line).value.1.FloatValue?
  {
    ClassifyOrder(line);
    if TryPattern(FloatPattern, line).Some? {
      FloatImpliesInt(line);
    }
  }

  /** The head of the example line below. */
  lemma ExampleHead()
    ensures Head(" a= 1.5") == Some(("a", 4))
  {
    var line := " a= 1.5";
    ExampleRuns();
    assert line[1..][..1] == "a";
  }

  /** The runs `Head` measures on the example line. */
  lemma ExampleRuns()
    ensures var line := " a= 1.5";
      SpaceRun(line) == 1 && WordRun(line[1..]) == 1 && SpaceRun(line[3..]) == 1
  {
    var line := " a= 1.5";
    assert SpaceRun(line) == 1;
    assert line[1..] == "a= 1.5";
    ExampleKeyRun();
    assert line[3..] == " 1.5";
    ExampleValueSpace();
  }

  /** The key of the example line is one character long. */
  lemma ExampleKeyRun()
    ensures WordRun("a= 1.5") == 1
  {
    assert "a= 1.5"[1..] == "= 1.5";
    assert WordRun("= 1.5") == 0;
  }

  /** One space separates `=` from the example value. */
  lemma ExampleValueSpace()
    ensures SpaceRun(" 1.5") == 1
  {
    assert " 1.5"[1..] == "1.5";
    assert SpaceRun("1.5") == 0;
  }

  /** A fractional value keeps only its integer part: ` a= 1.5` stores 1. */
  lemma FractionStoredAsInt(line: string)
    requires line == " a= 1.5"
    ensures ClassifyLine(line) == Some(("a", IntValue(1)))
  {
    ExampleHead();
    assert line[4..] == "1.5";
    ExampleIntToken();
    assert TryPattern(IntPattern, line) == Some(("a", IntValue(1)));
    ClassifyOrder(line);
  }

  /** The integer token of the example value stops at the dot. */
  lemma ExampleIntToken()
    ensures IntToken("1.5") == Some(1)
  {
    var v := "1.5";
    assert SignLength(v) == 0;
    assert v[0..] == v;
    assert DigitRun(v[1..]) == 0;
    assert DigitRun(v) == 1;
    assert v[..1] == "1";
  }

  // ---------------------------------------------------------------------------
  // parse_misc_visitag_data

  /** What one line contributes: a key and its value, or nothing. */
  type Entry = Option<(string, MiscValue)>

  function Entries(lines: seq<string>): (es: seq<Entry>)
    ensures |es| == |lines| && forall i :: 0 <= i < |lines| ==> es[i] == ClassifyLine(lines[i])
  {
    seq(|lines|, i requires 0 <= i < |lines| => ClassifyLine(lines[i]))
  }

  /** The dictionary filled from the entries in order, a later key overwriting. */
  function Store(es: seq<Entry>): (d: map<string, MiscValue>)
  {
    if es == [] then map[]
    else
      var d := Store(es[..|es| - 1]);
      match es[|es| - 1]
      case None => d
      case Some((k, v)) => d[k := v]
  }

  /** The dictionary `parse_misc_visitag_data` returns for the lines of a file. */
  function ParseMisc(lines: seq<string>): (d: map<string, MiscValue>)
  {
    Store(Entries(lines))
  }

  lemma {:induction false} StoreKeys(es: seq<Entry>, k: string)
    ensures k in Store(es) <==> exists i :: 0 <= i < |es| && es[i].Some? && es[i].value.0 == k
  {
    if es != [] {
      var init := es[..|es| - 1];
      assert forall i :: 0 <= i < |init| ==> init[i] == es[i];
      StoreKeys(init, k);
    }
  }

  lemma {:induction false} StoreLastWins(es: seq<Entry>, i: nat)
    requires i < |es| && es[i].Some?
    requires forall j :: i < j < |es| ==> es[j].None? || es[j].value.0 != es[i].value.0
    ensures es[i].value.0 in Store(es) && Store(es)[es[i].value.0] == es[i].value.1
  {
    var init := es[..|es| - 1];
    if i < |es| - 1 {
      assert forall j :: 0 <= j < |init| ==> init[j] == es[j];
      StoreLastWins(init, i);
    }
  }

  predicate HasKey(line: string, k: string)
  {
    ClassifyLine(line).Some? && ClassifyLine(line).value.0 == k
  }

  /** The keys are exactly those of the matching lines. */
  lemma ParseMiscKeys(lines: seq<string>, k: string)
    ensures k in ParseMisc(lines) <==> exists i :: 0 <= i < |lines| && HasKey(lines[i], k)
  {
    var es := Entries(lines);
    StoreKeys(es, k);
    if exists i :: 0 <= i < |lines| && HasKey(lines[i], k) {
      var i :| 0 <= i < |lines| && HasKey(lines[i], k);
      assert es[i].Some? && es[i].value.0 == k;
    }
  }

  /** A key holds the value of the last line that stores it. */
  lemma ParseMiscLastWins(lines: seq<string>, i: nat)
    requires i < |lines| && ClassifyLine(lines[i]).Some?
    requires forall j :: i < j < |lines| ==> !HasKey(lines[j], ClassifyLine(lines[i]).value.0)
    ensures var (k, v) := ClassifyLine(lines[i]).value;
      k in ParseMisc(lines) && ParseMisc(lines)[k] == v
  {
    var es := Entries(lines);
    forall j | i < j < |es| ensures es[j].None? || es[j].value.0 != es[i].value.0 {
      assert !HasKey(lines[j], ClassifyLine(lines[i]).value.0);
    }
    StoreLastWins(es, i);
  }

  /**
   * `parse_misc_visitag_data` over the lines of a file: for each line the
   * patterns are tried in order and the first match is stored.
   */
  method ParseMiscVisitagData(lines: seq<string>) returns (data: map<string, MiscValue>)
    ensures data == ParseMisc(lines)
  {
    ghost var es := Entries(lines);
    data := map[];
    for l := 0 to |lines|
      invariant data == Store(es[..l])
    {
      assert es[..l + 1][..l] == es[..l];
      var line := lines[l];
      ghost var before := data;
      for t := 0 to |Patterns|
        invariant data == before
        invariant FirstMatch(Patterns, line) == FirstMatch(Patterns[t..], line)
      {
        var m := TryPattern(Patterns[t], line);
        if m.Some? {
          data := data[m.value.0 := m.value.1];
          break;
        }
        assert Patterns[t..][1..] == Patterns[t + 1..];
      }
    }
    assert es[..|lines|] == es;
  }

  // ---------------------------------------------------------------------------
  // parse_visitag_file and parse_visitag_files

  /** What `pd.read_csv(file, sep="\s+")` does with a file. */
  datatype CsvOutcome = CsvTable(table: Table) | CsvParserError | CsvOtherError

  /** A file as the model sees it: its lines and the outcome of reading it as a table. */
  datatype FileInput = FileInput(lines: seq<string>, csv: CsvOutcome)

  /** A parsed visitag file: a table, or the key=value dictionary of the fallback. */
  datatype VisitagData = TableData(table: Table) | MiscData(entries: map<string, MiscValue>)

  /** An exception other than a parser error, raised while reading `path`. */
  datatype VisitagError = ReadFailed(path: string)

  /**
   * `parse_visitag_file`: the table when `read_csv` succeeds, the key=value
   * dictionary when it raises a parser error; only another exception fails.
   */
  function ParseVisitagFile(f: FileInput): (r: Option<VisitagData>)
    ensures r.None? <==> f.csv.CsvOtherError?
    ensures f.csv.CsvTable? ==> r == Some(TableData(f.csv.table))
    ensures f.csv.CsvParserError? ==> r == Some(MiscData(ParseMisc(f.lines)))
  {
    match f.csv
    case CsvTable(t) => Some(TableData(t))
    case CsvParserError => Some(MiscData(ParseMisc(f.lines)))
    case CsvOtherError => None
  }

  /**
   * `parse_visitag_files`: the results in the order of the paths; the first
   * failing file, in that order, is the one whose exception surfaces.
   */
  function ParseAll(paths: seq<string>, contents: string -> FileInput): (r: Result<seq<VisitagData>, VisitagError>)
    ensures r.Ok? ==> |r.value| == |paths|
  {
    if paths == [] then Ok([])
    else
      match ParseAll(paths[..|paths| - 1], contents)
      case Err(e) => Err(e)
      case Ok(ds) =>
        match ParseVisitagFile(contents(paths[|paths| - 1]))
        case None => Err(ReadFailed(paths[|paths| - 1]))
        case Some(d) => Ok(ds + [d])
  }

  /**
   * The collection succeeds exactly when no file raises anything but a
   * parser error; then the `i`-th result is that of the `i`-th path, and a
   * failure names the first path that raises.
   */
  lemma {:induction false} ParseAllSpec(paths: seq<string>, contents: string -> FileInput)
    ensures var r := ParseAll(paths, contents);
      (r.Ok? <==> forall i :: 0 <= i < |paths| ==> ParseVisitagFile(contents(paths[i])).Some?) &&
      (r.Ok? ==> forall i :: 0 <= i < |paths| ==> Some(r.value[i]) == ParseVisitagFile(contents(paths[i]))) &&
      (r.Err? ==> exists i :: 0 <= i < |paths| && r.error == ReadFailed(paths[i]) &&
                              ParseVisitagFile(contents(paths[i])).None? &&
                              forall j :: 0 <= j < i ==> ParseVisitagFile(contents(paths[j])).Some?)
  {
    if paths != [] {
      var init := paths[..|paths| - 1];
      assert forall i :: 0 <= i < |init| ==> init[i] == paths[i];
      ParseAllSpec(init, contents);
    }
  }

  /** `parse_visitag_files`, with the thread pool's fan-out run in order. */
  method ParseVisitagFiles(paths: seq<string>, contents: string -> FileInput) returns (r: Result<seq<VisitagData>, VisitagError>)
    ensures r == ParseAll(paths, contents)
  {
    var data: seq<VisitagData> := [];
    for i := 0 to |paths|
      invariant ParseAll(paths[..i], contents) == Ok(data)
    {
      assert paths[..i + 1][..i] == paths[..i];
      var d := ParseVisitagFile(contents(paths[i]));
      if d.None? {
        ParseAllSticky(paths, contents, i + 1);
        return Err(ReadFailed(paths[i]));
      }
      data := data + [d.value];
    }
    assert paths[..|paths|] == paths;
    r := Ok(data);
  }

  /** Once a file has failed, the collection has failed. */
  lemma {:induction false} ParseAllSticky(paths: seq<string>, contents: string -> FileInput, i: nat)
    requires i <= |paths| && ParseAll(paths[..i], contents).Err?
    ensures ParseAll(paths, contents) == ParseAll(paths[..i], contents)
  {
    if i < |paths| {
      var init := paths[..|paths| - 1];
      assert init[..i] == paths[..i];
      ParseAllSticky(init, contents, i);
    } else {
      assert paths[..i] == paths;
    }
  }

  // ---------------------------------------------------------------------------
  // read_visitag_dir

  /** `os.path.join(root, file)`. */
  function Join(root: string, file: string): (p: string)
    ensures EndsWith(p, file)
  {
    if StartsWith(file, "/") || root == [] then file
    else if root[|root| - 1] == '/' then root + file
    else root + "/" + file
  }

  /** Position just after the last `/` of `p` (0 when it has none). */
  function AfterLastSlash(p: string): (i: nat)
    ensures i <= |p| && (i > 0 ==> p[i - 1] == '/')
    ensures forall k :: i <= k < |p| ==> p[k] != '/'
  {
    if p == [] then 0
    else if p[|p| - 1] == '/' then |p|
    else AfterLastSlash(p[..|p| - 1])
  }

  /** `os.path.basename(p)`. */
  function Basename(p: string): (b: string)
    ensures '/' !in b
  {
    p[AfterLastSlash(p)..]
  }

  /** Position of the last `.` of `b`, if any. */
  function LastDot(b: string): (r: Option<nat>)
    ensures r.Some? ==> r.value < |b| && b[r.value] == '.' && forall k :: r.value < k < |b| ==> b[k] != '.'
    ensures r.None? ==> '.' !in b
  {
    if b == [] then None
    else if b[|b| - 1] == '.' then Some(|b| - 1)
    else LastDot(b[..|b| - 1])
  }

  predicate AllDots(s: string)
  {
    forall k :: 0 <= k < |s| ==> s[k] == '.'
  }

  /**
   * `os.path.splitext(os.path.basename(p))[0]`: the basename up to its last
   * dot, unless everything before that dot is dots (a hidden file's name is
   * its own stem).
   */
  function Stem(p: string): (s: string)
  {
    NameStem(Basename(p))
  }

  /** `os.path.splitext(b)[0]` for a name `b` without a `/`. */
  function NameStem(b: string): (s: string)
  {
    match LastDot(b)
    case None => b
    case Some(d) => if AllDots(b[..d]) then b else b[..d]
  }

  /** Joining a file name onto its directory and taking the basename gives the file name back. */
  lemma BasenameJoin(root: string, file: string)
    requires '/' !in file
    ensures Basename(Join(root, file)) == file
  {
    var p := Join(root, file);
    assert p[|p| - |file|..] == file;
    if |p| > |file| {
      assert p[|p| - |file| - 1] == '/';
    }
  }

  /** A `.txt` file's result is keyed by its name without the extension. */
  lemma StemOfTxt(root: string, file: string)
    requires '/' !in file && EndsWith(file, ".txt") && !AllDots(file[..|file| - 4])
    ensures Stem(Join(root, file)) == file[..|file| - 4]
  {
    BasenameJoin(root, file);
    TxtNameStem(file);
  }

  /** The stem of a name ending in `.txt` drops those four characters. */
  lemma TxtNameStem(file: string)
    requires EndsWith(file, ".txt") && !AllDots(file[..|file| - 4])
    ensures NameStem(file) == file[..|file| - 4]
  {
    assert file[|file| - 4..] == ".txt";
    assert forall k :: |file| - 4 <= k < |file| ==> file[k] == ".txt"[k - (|file| - 4)];
    LastDotAt(file, |file| - 4);
  }

  /** A dot with no dot after it is the last dot. */
  lemma LastDotAt(b: string, i: nat)
    requires i < |b| && b[i] == '.' && forall k :: i < k < |b| ==> b[k] != '.'
    ensures LastDot(b) == Some(i)
  {
    assert b[i] in b;
  }

  /** One directory of the walk: its path and the names of the files in it. */
  datatype WalkEntry = WalkEntry(root: string, files: seq<string>)

  /** The `.txt` files among `files`, joined onto `root`, in order. */
  function TxtIn(root: string, files: seq<string>): (ps: seq<string>)
  {
    if files == [] then []
    else
      var last := files[|files| - 1];
      TxtIn(root, files[..|files| - 1]) + (if EndsWith(last, ".txt") then [Join(root, last)] else [])
  }

  /** The paths `read_visitag_dir` collects, in the order of the walk. */
  function TxtFiles(walk: seq<WalkEntry>): (ps: seq<string>)
  {
    if walk == [] then []
    else TxtFiles(walk[..|walk| - 1]) + TxtIn(walk[|walk| - 1].root, walk[|walk| - 1].files)
  }

  /** A path is collected exactly when it is a `.txt` file of some directory. */
  lemma {:induction false} TxtInMembers(root: string, files: seq<string>, p: string)
    ensures p in TxtIn(root, files) <==> exists j :: 0 <= j < |files| && EndsWith(files[j], ".txt") && p == Join(root, files[j])
  {
    if files != [] {
      var init := files[..|files| - 1];
      assert forall j :: 0 <= j < |init| ==> init[j] == files[j];
      TxtInMembers(root, init, p);
    }
  }

  lemma TxtFilesMembers(walk: seq<WalkEntry>, p: string)
    ensures p in TxtFiles(walk) <==>
      exists i, j :: 0 <= i < |walk| && 0 <= j < |walk[i].files| &&
        EndsWith(walk[i].files[j], ".txt") && p == Join(walk[i].root, walk[i].files[j])
  {
    if p in TxtFiles(walk) {
      TxtFilesSound(walk, p);
    }
    forall i, j | 0 <= i < |walk| && 0 <= j < |walk[i].files| &&
        EndsWith(walk[i].files[j], ".txt") && p == Join(walk[i].root, walk[i].files[j])
      ensures p in TxtFiles(walk)
    {
      TxtFilesComplete(walk, p, i, j);
    }
  }

  /** Every collected path is a `.txt` file of some directory of the walk. */
  lemma {:induction false} TxtFilesSound(walk: seq<WalkEntry>, p: string)
    requires p in TxtFiles(walk)
    ensures exists i, j :: 0 <= i < |walk| && 0 <= j < |walk[i].files| &&
                           EndsWith(walk[i].files[j], ".txt") && p == Join(walk[i].root, walk[i].files[j])
  {
    var init := walk[..|walk| - 1];
    var last := walk[|walk| - 1];
    if p in TxtFiles(init) {
      TxtFilesSound(init, p);
      var i, j :| 0 <= i < |init| && 0 <= j < |init[i].files| &&
        EndsWith(init[i].files[j], ".txt") && p == Join(init[i].root, init[i].files[j]);
      assert init[i] == walk[i];
    } else {
      TxtInMembers(last.root, last.files, p);
      var j :| 0 <= j < |last.files| && EndsWith(last.files[j], ".txt") && p == Join(last.root, last.files[j]);
      assert walk[|walk| - 1] == last;
    }
  }

  /** Every `.txt` file of every directory of the walk is collected. */
  lemma {:induction false} TxtFilesComplete(walk: seq<WalkEntry>, p: string, i: nat, j: nat)
    requires i < |walk| && j < |walk[i].files|
    requires EndsWith(walk[i].files[j], ".txt") && p == Join(walk[i].root, walk[i].files[j])
    ensures p in TxtFiles(walk)
  {
    var init := walk[..|walk| - 1];
    if i < |walk| - 1 {
      assert init[i] == walk[i];
      TxtFilesComplete(init, p, i, j);
    } else {
      TxtInMembers(walk[i].root, walk[i].files, p);
    }
  }

  /** Every collected path ends in `.txt`. */
  lemma {:induction false} TxtFilesAreTxt(walk: seq<WalkEntry>, k: nat)
    requires k < |TxtFiles(walk)|
    ensures EndsWith(TxtFiles(walk)[k], ".txt")
  {
    var p := TxtFiles(walk)[k];
    TxtFilesMembers(walk, p);
    var i, j :| 0 <= i < |walk| && 0 <= j < |walk[i].files| &&
      EndsWith(walk[i].files[j], ".txt") && p == Join(walk[i].root, walk[i].files[j]);
    var f := walk[i].files[j];
    assert p[|p| - |f|..] == f;
    assert p[|p| - 4..] == f[|f| - 4..];
  }

  /** The dictionary comprehension keying the results by stem; a later stem overwrites. */
  function StemMap(paths: seq<string>, data: seq<VisitagData>): (m: map<string, VisitagData>)
    requires |paths| == |data|
    ensures forall s :: s in m <==> exists i :: 0 <= i < |paths| && Stem(paths[i]) == s
  {
    var pairs := seq(|paths|, i requires 0 <= i < |paths| => (Stem(paths[i]), data[i]));
    assert forall i :: 0 <= i < |paths| ==> pairs[i].0 == Stem(paths[i]);
    MapOfPairs(pairs)
  }

  /** A stem holds the result of the last file with that stem. */
  lemma StemMapLastWins(paths: seq<string>, data: seq<VisitagData>, i: nat)
    requires |paths| == |data| && i < |paths|
    requires forall j :: i < j < |paths| ==> Stem(paths[j]) != Stem(paths[i])
    ensures StemMap(paths, data)[Stem(paths[i])] == data[i]
  {
    var pairs := seq(|paths|, i requires 0 <= i < |paths| => (Stem(paths[i]), data[i]));
    MapOfPairsLastWins(pairs, i);
  }

  /** The outcome of `read_visitag_dir` over a directory walk. */
  function VisitagDir(walk: seq<WalkEntry>, contents: string -> FileInput): (r: Result<map<string, VisitagData>, VisitagError>)
  {
    var paths := TxtFiles(walk);
    match ParseAll(paths, contents)
    case Err(e) => Err(e)
    case Ok(data) => Ok(StemMap(paths, data))
  }

  /** The walk's file-collecting loops. */
  method CollectTxtFiles(walk: seq<WalkEntry>) returns (paths: seq<string>)
    ensures paths == TxtFiles(walk)
  {
    paths := [];
    for r := 0 to |walk|
      invariant paths == TxtFiles(walk[..r])
    {
      assert walk[..r + 1][..r] == walk[..r];
      var root, files := walk[r].root, walk[r].files;
      ghost var before := paths;
      for f := 0 to |files|
        invariant paths == before + TxtIn(root, files[..f])
      {
        assert files[..f + 1][..f] == files[..f];
        if EndsWith(files[f], ".txt") {
          paths := paths + [Join(root, files[f])];
        }
      }
      assert files[..|files|] == files;
    }
    assert walk[..|walk|] == walk;
  }

  /** `read_visitag_dir`: collect the `.txt` paths, parse each, key the results by stem. */
  method ReadVisitagDir(walk: seq<WalkEntry>, contents: string -> FileInput) returns (r: Result<map<string, VisitagData>, VisitagError>)
    ensures r == VisitagDir(walk, contents)
  {
    var paths := CollectTxtFiles(walk);
    var data := ParseVisitagFiles(paths, contents);
    match data {
      case Err(e) =>
        return Err(e);
      case Ok(ds) =>
        return Ok(StemMap(paths, ds));
    }
  }
}
