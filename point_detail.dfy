/**
 * The detail record of one CARTO3 point (`CartoPointDetailData`): its
 * metadata, the contact-force table, the ECG gain read from the export's
 * metadata line, the check that the raw ECG fits int16, the split of the
 * channels into the 12-lead surface ECG and the remaining electrograms, and
 * the removal of the `(number)` suffixes from the channel names.
 */
module PointDetail {
  import opened Common
  import opened Tables
  import Dtypes

  /** One channel of a point's ECG export: its column header and its samples. */
  datatype Channel = Channel(name: string, samples: seq<int>)

  // ---------------------------------------------------------------------------
  // The ECG gain

  const GainPrefix: string := "Raw ECG to MV (gain)"

  /** `-?\d+\.?\d*` at the start of `v`: the matched text. */
  function NumberToken(v: string): (tok: Option<string>)
    ensures tok.Some? ==> |tok.value| <= |v| && v[..|tok.value|] == tok.value
  {
    var s := SignLength(v);
    var n := DigitRun(v[s..]);
    if n == 0 then None
    else
      var e := s + n;
      if e < |v| && v[e] == '.' then Some(v[..e + 1 + DigitRun(v[e + 1..])]) else Some(v[..e])
  }

  /**
   * The gain captured by `\s*Raw ECG to MV \(gain\)\s*\=\s*(-?\d+\.?\d*)\s*`
   * at the start of the metadata line, converted by `float`; `None` when the
   * pattern does not match (the program then fails on `None.group`).
   */
  function GainOf(line: string): (g: Option<real>)
  {
    var r := line[SpaceRun(line)..];
    if !StartsWith(r, GainPrefix) then None else GainAfterLabel(r[|GainPrefix|..])
  }

  /** The rest of the pattern after the label: blanks, `=`, then the number. */
  function GainAfterLabel(r: string): (g: Option<real>)
  {
    var r' := r[SpaceRun(r)..];
    if r' == [] || r'[0] != '=' then None else GainValue(r'[1..])
  }

  /** The rest of the pattern after `=`: blanks, then the number. */
  function GainValue(r: string): (g: Option<real>)
  {
    NumberValue(r[SpaceRun(r)..])
  }

  /** The value of the number `v` starts with, if it starts with one. */
  function NumberValue(v: string): (g: Option<real>)
  {
    match NumberToken(v)
    case None => None
    case Some(tok) => ParseDecimal(tok)
  }

  /** `tok` is matched as a whole by `-?\d+\.?\d*`. */
  predicate NumberShaped(tok: string)
  {
    var s := SignLength(tok);
    var n := DigitRun(tok[s..]);
    n > 0 && var rest := tok[s..][n..]; rest == [] || (rest[0] == '.' && AllDigits(rest[1..]))
  }

  /**
   * The token is the match of the greedy pattern: a prefix of `v` that the
   * pattern matches as a whole, longer than any other such prefix; there is
   * none exactly when no prefix matches.
   */
  lemma NumberTokenMaximal(v: string)
    ensures var tok := NumberToken(v);
      (tok.None? <==> forall j :: 0 <= j <= |v| ==> !NumberShaped(v[..j])) &&
      (tok.Some? ==> NumberShaped(tok.value) && forall j :: |tok.value| < j <= |v| ==> !NumberShaped(v[..j]))
  {
    var tok := NumberToken(v);
    if tok.None? {
      forall j | 0 <= j <= |v| ensures !NumberShaped(v[..j]) {
        NoDigitsNoNumber(v, j);
      }
    } else {
      NumberTokenShaped(v);
      forall j | |tok.value| < j <= |v| ensures !NumberShaped(v[..j]) {
        NumberTokenLongest(v, j);
      }
    }
  }

  /** Without a digit after the optional sign no prefix is a number. */
  lemma NoDigitsNoNumber(v: string, j: nat)
    requires j <= |v| && DigitRun(v[SignLength(v)..]) == 0
    ensures !NumberShaped(v[..j])
  {
    var w := v[..j];
    var s := SignLength(v);
    if j > 0 {
      assert SignLength(w) == s;
      if s < j {
        assert w[s..][0] == v[s..][0];
      }
    }
  }

  /** The token matches the pattern as a whole. */
  lemma NumberTokenShaped(v: string)
    requires NumberToken(v).Some?
    ensures NumberShaped(NumberToken(v).value)
  {
    var tok := NumberToken(v).value;
    var s := SignLength(v);
    var n := DigitRun(v[s..]);
    var e := s + n;
    if e < |v| && v[e] == '.' {
      var m := DigitRun(v[e + 1..]);
      FractionTokenShape(v, tok, s, n, m);
    } else {
      WholeTokenShape(v, tok, s, n);
    }
  }

  /** No prefix longer than the token matches the pattern as a whole. */
  lemma NumberTokenLongest(v: string, j: nat)
    requires NumberToken(v).Some? && |NumberToken(v).value| < j <= |v|
    ensures !NumberShaped(v[..j])
  {
    var tok := NumberToken(v).value;
    var s := SignLength(v);
    var n := DigitRun(v[s..]);
    var e := s + n;
    var w := v[..j];
    assert SignLength(w) == s;
    assert w[s..] == v[s..][..j - s];
    DigitRunPrefix(v[s..], w[s..], n);
    var rest := w[s..][n..];
    assert rest == v[e..j];
    if e < |v| && v[e] == '.' {
      var m := DigitRun(v[e + 1..]);
      assert rest[1..][m] == v[e + 1..][m];
    }
  }

  /** The matched number always converts: `float` never fails on it. */
  lemma NumberTokenParses(v: string)
    requires NumberToken(v).Some?
    ensures ParseDecimal(NumberToken(v).value).Some?
  {
    NumberTokenShaped(v);
    var tok := NumberToken(v).value;
    DecimalShape(tok, SignLength(tok), DigitRun(tok[SignLength(tok)..]));
  }

  /** A token `-?\d+` followed by nothing or by `.` and digits is a decimal literal. */
  lemma DecimalShape(tok: string, s: nat, n: nat)
    requires s == SignLength(tok) && n > 0 && n == DigitRun(tok[s..])
    requires var rest := tok[s..][n..]; rest == [] || (rest[0] == '.' && AllDigits(rest[1..]))
    ensures ParseDecimal(tok).Some?
  {
  }

  /** The shape of a token `-?\d+\.\d*`. */
  lemma FractionTokenShape(v: string, tok: string, s: nat, n: nat, m: nat)
    requires s == SignLength(v) && n == DigitRun(v[s..]) && n > 0
    requires s + n < |v| && v[s + n] == '.' && m == DigitRun(v[s + n + 1..])
    requires tok == v[..s + n + 1 + m]
    ensures s == SignLength(tok) && n == DigitRun(tok[s..])
    ensures var rest := tok[s..][n..]; rest != [] && rest[0] == '.' && AllDigits(rest[1..])
  {
    TokenPrefixRuns(v, tok, s, n);
    FractionDigits(v, tok, s + n, m);
    assert tok[s..][n..] == tok[s + n..];
  }

  /** A token cut from `v` just after the digits that follow a `.` at position `p` ends in that `.` and those digits. */
  lemma FractionDigits(v: string, tok: string, p: nat, m: nat)
    requires p < |v| && v[p] == '.' && m == DigitRun(v[p + 1..]) && tok == v[..p + 1 + m]
    ensures var rest := tok[p..]; rest != [] && rest[0] == '.' && AllDigits(rest[1..])
  {
    var rest := tok[p..];
    forall k | 0 <= k < m ensures IsDigit(rest[1..][k]) {
      assert rest[1..][k] == v[p + 1..][k];
    }
  }

  /** The shape of a token `-?\d+` with no fraction. */
  lemma WholeTokenShape(v: string, tok: string, s: nat, n: nat)
    requires s == SignLength(v) && n == DigitRun(v[s..]) && n > 0
    requires tok == v[..s + n]
    ensures s == SignLength(tok) && n == DigitRun(tok[s..]) && tok[s..][n..] == []
  {
    TokenPrefixRuns(v, tok, s, n);
  }

  /** A prefix of `v` reaching past its sign and digits, and not continuing them with a digit, has the same sign and digits. */
  lemma TokenPrefixRuns(v: string, tok: string, s: nat, n: nat)
    requires s == SignLength(v) && n == DigitRun(v[s..]) && n > 0
    requires s + n <= |tok| <= |v| && tok == v[..|tok|]
    requires |tok| > s + n ==> !IsDigit(tok[s + n])
    ensures s == SignLength(tok) && n == DigitRun(tok[s..])
  {
    var w := v[s..];
    var t := tok[s..];
    assert t == w[..|t|];
    DigitRunPrefix(w, t, n);
  }

  /** A prefix of `v` that ends where `v`'s digit run ends has the same digit run. */
  lemma DigitRunPrefix(v: string, t: string, n: nat)
    requires n == DigitRun(v) && n <= |t| <= |v| && t == v[..|t|]
    requires |t| > n ==> !IsDigit(t[n])
    ensures DigitRun(t) == n
    decreases n
  {
    if n > 0 {
      assert v[1..][..|t| - 1] == t[1..];
      DigitRunPrefix(v[1..], t[1..], n - 1);
    }
  }

  /**
   * A metadata line cut as the pattern reads it: blanks, the gain label,
   * blanks, `=`, blanks and the text the number is taken from.
   */
  predicate GainLine(line: string, ws1: string, ws2: string, ws3: string, v: string)
  {
    AllSpaces(ws1) && AllSpaces(ws2) && AllSpaces(ws3) && (v == [] || !IsSpace(v[0])) &&
    line == ws1 + GainPrefix + ws2 + "=" + ws3 + v
  }

  /**
   * The gain is found exactly when the line reads blanks, the label, blanks,
   * `=`, blanks and then a number, and it is that number's value.
   */
  lemma GainOfIff(line: string, g: real)
    ensures GainOf(line) == Some(g) <==>
      exists ws1, ws2, ws3, v :: GainLine(line, ws1, ws2, ws3, v) && NumberToken(v).Some? &&
                                 NumberValue(v) == Some(g)
  {
    if GainOf(line) == Some(g) {
      var ws1, ws2, ws3, v := GainOfParts(line);
      GainOfShape(line, ws1, ws2, ws3, v);
    }
    if exists ws1, ws2, ws3, v :: GainLine(line, ws1, ws2, ws3, v) && NumberToken(v).Some? &&
                                 NumberValue(v) == Some(g) {
      var ws1, ws2, ws3, v :| GainLine(line, ws1, ws2, ws3, v) && NumberToken(v).Some? &&
                               NumberValue(v) == Some(g);
      GainOfShape(line, ws1, ws2, ws3, v);
    }
  }

  /** A line of that shape yields the value of the number its text starts with, if any. */
  lemma GainOfShape(line: string, ws1: string, ws2: string, ws3: string, v: string)
    requires GainLine(line, ws1, ws2, ws3, v)
    ensures GainOf(line) == NumberValue(v)
  {
    var u := ws2 + "=" + ws3 + v;
    assert line == ws1 + (GainPrefix + u);
    GainOfLabel(ws1, u);
    GainAfterLabelShape(ws2, ws3, v);
  }

  /** Blanks and the label lead to the rest of the pattern. */
  lemma GainOfLabel(ws: string, u: string)
    requires AllSpaces(ws)
    ensures GainOf(ws + (GainPrefix + u)) == GainAfterLabel(u)
  {
    var t := GainPrefix + u;
    assert t[0] == 'R';
    SpaceRunOf(ws, t);
    assert (ws + t)[|ws|..] == t;
    assert t[..|GainPrefix|] == GainPrefix;
    assert t[|GainPrefix|..] == u;
  }

  /** Blanks, `=` and blanks lead to the number. */
  lemma GainAfterLabelShape(ws2: string, ws3: string, v: string)
    requires AllSpaces(ws2) && AllSpaces(ws3) && (v == [] || !IsSpace(v[0]))
    ensures GainAfterLabel(ws2 + "=" + ws3 + v) == NumberValue(v)
  {
    Regroup(ws2, "=", ws3, v);
    EqualsAfterBlanks(ws2, ws3 + v);
    GainValueShape(ws3, v);
  }

  /** Blanks and `=` lead to the value. */
  lemma EqualsAfterBlanks(ws: string, r: string)
    requires AllSpaces(ws)
    ensures GainAfterLabel(ws + ("=" + r)) == GainValue(r)
  {
    var t := "=" + r;
    SpaceRunOf(ws, t);
    assert (ws + t)[|ws|..] == t;
    assert t[1..] == r;
  }

  /** Blanks lead to the number. */
  lemma GainValueShape(ws: string, v: string)
    requires AllSpaces(ws) && (v == [] || !IsSpace(v[0]))
    ensures GainValue(ws + v) == NumberValue(v)
  {
    SpaceRunOf(ws, v);
    assert (ws + v)[|ws|..] == v;
  }

  /** A line with a gain has that shape. */
  lemma GainOfParts(line: string) returns (ws1: string, ws2: string, ws3: string, v: string)
    requires GainOf(line).Some?
    ensures GainLine(line, ws1, ws2, ws3, v) && NumberToken(v).Some?
  {
    var a := SpaceRun(line);
    var u := line[a..][|GainPrefix|..];
    assert StartsWith(line[a..], GainPrefix) && GainAfterLabel(u).Some?;
    ws1, ws2, ws3, v := LabelParts(line, a, u);
  }

  /** Blanks, the label, and a rest holding the gain. */
  lemma LabelParts(line: string, a: nat, u: string) returns (ws1: string, ws2: string, ws3: string, v: string)
    requires a <= |line| && AllSpaces(line[..a]) && StartsWith(line[a..], GainPrefix)
    requires u == line[a..][|GainPrefix|..] && GainAfterLabel(u).Some?
    ensures GainLine(line, ws1, ws2, ws3, v) && NumberToken(v).Some?
  {
    ws1 := line[..a];
    LabelCut(line, a);
    ws2, ws3, v := GainAfterLabelParts(u);
    GainLineOf(line, ws1, ws2, ws3, v);
  }

  /** The pieces found one after the other make up the line. */
  lemma GainLineOf(line: string, ws1: string, ws2: string, ws3: string, v: string)
    requires AllSpaces(ws1) && AllSpaces(ws2) && AllSpaces(ws3) && (v == [] || !IsSpace(v[0]))
    requires line == ws1 + (GainPrefix + (ws2 + "=" + ws3 + v))
    ensures GainLine(line, ws1, ws2, ws3, v)
  {
    Regroup6(ws1, GainPrefix, ws2, "=", ws3, v);
  }

  /** A line cut before and after the label found at `a`. */
  lemma LabelCut(line: string, a: nat)
    requires a <= |line| && StartsWith(line[a..], GainPrefix)
    ensures line == line[..a] + (GainPrefix + line[a..][|GainPrefix|..])
  {
    var r := line[a..];
    assert r == r[..|GainPrefix|] + r[|GainPrefix|..];
  }

  /** Concatenation regrouped to the right after two pieces. */
  lemma Regroup6(a: string, p: string, b: string, c: string, d: string, e: string)
    ensures a + p + b + c + d + e == a + (p + (b + c + d + e))
  {
  }

  /** The rest of a line with a gain: blanks, `=`, blanks and a number. */
  lemma GainAfterLabelParts(u: string) returns (ws2: string, ws3: string, v: string)
    requires GainAfterLabel(u).Some?
    ensures AllSpaces(ws2) && AllSpaces(ws3) && (v == [] || !IsSpace(v[0])) && NumberToken(v).Some?
    ensures u == ws2 + "=" + ws3 + v
  {
    var b := SpaceRun(u);
    assert u[b..][1..] == u[b + 1..];
    assert b < |u| && u[b] == '=' && GainValue(u[b + 1..]).Some?;
    ws2, ws3, v := EqualsParts(u, b);
  }

  /** Blanks, the `=` at `b`, and a rest holding the number. */
  lemma EqualsParts(u: string, b: nat) returns (ws2: string, ws3: string, v: string)
    requires b < |u| && u[b] == '=' && AllSpaces(u[..b]) && GainValue(u[b + 1..]).Some?
    ensures AllSpaces(ws2) && AllSpaces(ws3) && (v == [] || !IsSpace(v[0])) && NumberToken(v).Some?
    ensures u == ws2 + "=" + ws3 + v
  {
    var w := u[b + 1..];
    var c := SpaceRun(w);
    ws2, ws3, v := u[..b], w[..c], w[c..];
    CutAtEquals(u, b, c);
  }

  /** A string cut before and after an `=` at `b`, and again `c` characters later. */
  lemma CutAtEquals(u: string, b: nat, c: nat)
    requires b < |u| && u[b] == '=' && c <= |u| - b - 1
    ensures u == u[..b] + "=" + u[b + 1..][..c] + u[b + 1..][c..]
  {
    var w := u[b + 1..];
    assert w == w[..c] + w[c..];
    assert u[b..] == "=" + w;
    assert u == u[..b] + ("=" + (w[..c] + w[c..]));
    Regroup(u[..b], "=", w[..c], w[c..]);
  }

  /** Concatenation regrouped to the right. */
  lemma Regroup(a: string, b: string, c: string, d: string)
    ensures a + b + c + d == a + (b + (c + d))
  {
  }

  /** The pattern is anchored at the start of the line: a line opening with other text has no gain. */
  lemma GainAnchored(line: string)
    requires line != [] && !IsSpace(line[0]) && line[0] != 'R'
    ensures GainOf(line).None?
  {
    assert SpaceRun(line) == 0;
    assert line[0..] == line;
    assert !StartsWith(line, GainPrefix) by {
      assert GainPrefix[0] == 'R';
      if |GainPrefix| <= |line| {
        assert line[..|GainPrefix|][0] == line[0];
      }
    }
  }

  /** The gain of a typical metadata line. */
  lemma GainExample(line: string)
    requires line == "Raw ECG to MV (gain) = 0.5"
    ensures GainOf(line) == Some(0.5)
  {
    assert !IsSpace(line[0]);
    assert SpaceRun(line) == 0;
    assert line[..20] == GainPrefix;
    assert line[20..] == " = 0.5";
    GainTail();
  }

  lemma GainTail()
    ensures var r2 := " = 0.5";
      var r3 := r2[SpaceRun(r2)..];
      r3 == "= 0.5" && r3[1..][SpaceRun(r3[1..])..] == "0.5" && NumberToken("0.5") == Some("0.5") &&
      ParseDecimal("0.5") == Some(0.5)
  {
    assert SpaceRun(" = 0.5") == 1;
    assert " = 0.5"[1..] == "= 0.5" && "= 0.5"[1..] == " 0.5";
    assert SpaceRun(" 0.5") == 1;
    assert " 0.5"[1..] == "0.5";
    NumberExample();
  }

  lemma NumberExample()
    ensures NumberToken("0.5") == Some("0.5") && ParseDecimal("0.5") == Some(0.5)
  {
    var v := "0.5";
    assert SignLength(v) == 0;
    assert v[0..] == v;
    assert DigitRun(v) == 1 by {
      assert v[1..] == ".5";
    }
    assert v[2..] == "5";
    assert DigitRun("5") == 1 by {
      assert "5"[1..] == [];
    }
    assert v[..3] == v;
    assert v[..1] == "0" && v[1..] == ".5" && ".5"[1..] == "5";
    assert DigitsValue("0") == 0 && DigitsValue("5") == 5;
  }

  // ---------------------------------------------------------------------------
  // The int16 check

  predicate InInt16(x: int)
  {
    -32768 <= x <= 32767
  }

  /**
   * The assertion on `ecg_data.min().min()` and `.max().max()`: it holds when
   * there is a sample at all (an empty table's minimum is NaN, which fails
   * both comparisons) and every sample lies in the int16 range.
   */
  predicate FitsInt16(ecg: seq<Channel>)
  {
    (exists c :: 0 <= c < |ecg| && ecg[c].samples != []) &&
    forall c, k :: 0 <= c < |ecg| && 0 <= k < |ecg[c].samples| ==> InInt16(ecg[c].samples[k])
  }

  // ---------------------------------------------------------------------------
  // The 12 leads

  const EcgLabels: seq<string> := ["I", "II", "III", "aVR", "aVL", "aVF", "V1", "V2", "V3", "V4", "V5", "V6"]

  /** `<lead>\(\d+\)` matched at the start: the column header opens with the lead name and a parenthesised number. */
  predicate LeadMatch(lead: string, col: string)
  {
    |lead| < |col| && col[..|lead|] == lead && col[|lead|] == '(' &&
    var d := DigitRun(col[|lead| + 1..]);
    d > 0 && |lead| + 1 + d < |col| && col[|lead| + 1 + d] == ')'
  }

  /** The positions of the columns matching `lead`, in column order. */
  function Matching(lead: string, names: seq<string>): (js: seq<nat>)
    ensures forall k :: 0 <= k < |js| ==> js[k] < |names| && LeadMatch(lead, names[js[k]])
    ensures forall j :: 0 <= j < |names| && LeadMatch(lead, names[j]) ==> j in js
    ensures forall a, b :: 0 <= a < b < |js| ==> js[a] < js[b]
  {
    if names == [] then []
    else
      var init := names[..|names| - 1];
      var js := Matching(lead, init);
      assert forall j :: 0 <= j < |init| ==> init[j] == names[j];
      if LeadMatch(lead, names[|names| - 1]) then js + [|names| - 1] else js
  }

  /**
   * The position of each lead's column, in lead order, when every lead
   * matches exactly one column; `None` when one is missing or ambiguous.
   */
  function LeadIndices(names: seq<string>): (r: Option<seq<nat>>)
    ensures r.Some? <==> forall l :: 0 <= l < |EcgLabels| ==> |Matching(EcgLabels[l], names)| == 1
    ensures r.Some? ==> (|r.value| == |EcgLabels| &&
      forall l :: 0 <= l < |EcgLabels| ==> r.value[l] == Matching(EcgLabels[l], names)[0])
  {
    if forall l :: 0 <= l < |EcgLabels| ==> |Matching(EcgLabels[l], names)| == 1
    then Some(seq(|EcgLabels|, l requires 0 <= l < |EcgLabels| => Matching(EcgLabels[l], names)[0]))
    else None
  }

  /**
   * The check and the choice in closed form: each lead's column is the one
   * and only column matching it.
   */
  lemma LeadIndicesExact(names: seq<string>, l: nat)
    requires LeadIndices(names).Some? && l < |EcgLabels|
    ensures var j := LeadIndices(names).value[l];
      j < |names| && LeadMatch(EcgLabels[l], names[j]) &&
      forall i :: 0 <= i < |names| && LeadMatch(EcgLabels[l], names[i]) ==> i == j
  {
    var js := Matching(EcgLabels[l], names);
    assert |js| == 1;
  }

  /** A lead without `(` is fixed by where the `(` of a matching column sits. */
  lemma LabelsExclusive(l1: string, l2: string, col: string)
    requires '(' !in l1 && '(' !in l2 && LeadMatch(l1, col) && LeadMatch(l2, col)
    ensures l1 == l2
  {
  }

  lemma LabelsHaveNoParen(l: nat)
    requires l < |EcgLabels|
    ensures '(' !in EcgLabels[l]
  {
  }

  /** Different leads take different columns. */
  lemma LeadsDistinct(names: seq<string>, l1: nat, l2: nat)
    requires LeadIndices(names).Some? && l1 < l2 < |EcgLabels|
    ensures LeadIndices(names).value[l1] != LeadIndices(names).value[l2]
  {
    var inds := LeadIndices(names).value;
    LeadIndicesExact(names, l1);
    LeadIndicesExact(names, l2);
    if inds[l1] == inds[l2] {
      LabelsHaveNoParen(l1);
      LabelsHaveNoParen(l2);
      LabelsExclusive(EcgLabels[l1], EcgLabels[l2], names[inds[l1]]);
    }
  }

  /** The positions below `n` that are not in `inds`, increasing: the columns `drop` keeps. */
  function Remaining(n: nat, inds: seq<nat>): (js: seq<nat>)
    ensures forall k :: 0 <= k < |js| ==> js[k] < n && js[k] !in inds
    ensures forall j :: 0 <= j < n && j !in inds ==> j in js
    ensures forall a, b :: 0 <= a < b < |js| ==> js[a] < js[b]
  {
    if n == 0 then []
    else
      var js := Remaining(n - 1, inds);
      if n - 1 in inds then js else js + [n - 1]
  }

  function Pick(ecg: seq<Channel>, js: seq<nat>): (r: seq<Channel>)
    requires forall k :: 0 <= k < |js| ==> js[k] < |ecg|
    ensures |r| == |js| && forall k :: 0 <= k < |js| ==> r[k] == ecg[js[k]]
  {
    seq(|js|, k requires 0 <= k < |js| => ecg[js[k]])
  }

  function Headers(ecg: seq<Channel>): (ns: seq<string>)
    ensures |ns| == |ecg| && forall k :: 0 <= k < |ecg| ==> ns[k] == ecg[k].name
  {
    seq(|ecg|, k requires 0 <= k < |ecg| => ecg[k].name)
  }

  // ---------------------------------------------------------------------------
  // Removing the channel numbers

  /** A parenthesised number `\((\d+)\)` starts at position `i`. */
  predicate NumberAt(col: string, i: nat)
  {
    i < |col| && col[i] == '(' &&
    var d := DigitRun(col[i + 1..]);
    d > 0 && i + 1 + d < |col| && col[i + 1 + d] == ')'
  }

  /** `(.+)` can take the first `i` characters: at least one, and no newline among them. */
  predicate Takeable(col: string, i: nat)
  {
    1 <= i <= |col| && forall k :: 0 <= k < i ==> col[k] != '\n'
  }

  /** The longest admissible lead length up to `i`: the backtracking of the greedy `.+`. */
  function LongestSplit(col: string, i: nat): (r: Option<nat>)
    requires i <= |col|
    ensures r.Some? ==> r.value <= i && Takeable(col, r.value) && NumberAt(col, r.value)
    ensures r.Some? ==> forall j :: r.value < j <= i ==> !(Takeable(col, j) && NumberAt(col, j))
    ensures r.None? ==> forall j :: 0 <= j <= i ==> !(Takeable(col, j) && NumberAt(col, j))
  {
    if i == 0 then None
    else if Takeable(col, i) && NumberAt(col, i) then Some(i)
    else LongestSplit(col, i - 1)
  }

  /**
   * `egm_label_re.match(col).group(1)` with `(.+)\((\d+)\)`: everything before
   * the last parenthesised number the greedy `.+` can reach; `None` when the
   * header has no such suffix.
   */
  function EgmLabel(col: string): (r: Option<string>)
    ensures r.Some? ==> Takeable(col, |r.value|) && NumberAt(col, |r.value|) && r.value == col[..|r.value|]
    ensures r.Some? ==> forall j :: |r.value| < j <= |col| ==> !(Takeable(col, j) && NumberAt(col, j))
    ensures r.None? <==> forall j :: 0 <= j <= |col| ==> !(Takeable(col, j) && NumberAt(col, j))
  {
    match LongestSplit(col, |col|)
    case None => None
    case Some(i) => Some(col[..i])
  }

  /** A header with a single `(` loses every `(` with its number. */
  lemma EgmLabelSingleParen(col: string)
    requires EgmLabel(col).Some?
    requires forall i, j :: 0 <= i < |col| && 0 <= j < |col| && col[i] == '(' && col[j] == '(' ==> i == j
    ensures '(' !in EgmLabel(col).value
  {
  }

  /** The position of the first header without a number suffix, or `|egm|` when every header has one. */
  function FirstUnnumbered(egm: seq<Channel>): (f: nat)
    ensures f <= |egm| && (f < |egm| ==> EgmLabel(egm[f].name).None?)
    ensures forall i :: 0 <= i < f ==> EgmLabel(egm[i].name).Some?
  {
    var flags := seq(|egm|, k requires 0 <= k < |egm| => EgmLabel(egm[k].name).Some?);
    assert forall k :: 0 <= k < |egm| ==> (flags[k] <==> EgmLabel(egm[k].name).Some?);
    match FirstFalse(flags)
    case None => |egm|
    case Some(f) => f
  }

  /**
   * The headers with their numbers removed, in order; the first header that
   * has no number aborts the list comprehension.
   */
  function StripEgm(egm: seq<Channel>): (r: Result<seq<Channel>, PointError>)
    ensures r.Ok? <==> forall k :: 0 <= k < |egm| ==> EgmLabel(egm[k].name).Some?
    ensures r.Ok? ==> (|r.value| == |egm| &&
      forall k :: 0 <= k < |egm| ==> r.value[k] == Channel(EgmLabel(egm[k].name).value, egm[k].samples))
    ensures r.Err? ==> (exists k :: 0 <= k < |egm| && r.error == NoChannelNumber(egm[k].name) &&
                                   EgmLabel(egm[k].name).None? && forall i :: 0 <= i < k ==> EgmLabel(egm[i].name).Some?)
  {
    var f := FirstUnnumbered(egm);
    if f < |egm| then Err(NoChannelNumber(egm[f].name))
    else Ok(seq(|egm|, k requires 0 <= k < |egm| => Channel(EgmLabel(egm[k].name).value, egm[k].samples)))
  }

  /** The surface ECG under the 12 canonical lead names. */
  function Relabel(surface: seq<Channel>): (r: seq<Channel>)
    requires |surface| == |EcgLabels|
    ensures |r| == |EcgLabels| && forall l :: 0 <= l < |EcgLabels| ==> r[l] == Channel(EcgLabels[l], surface[l].samples)
  {
    seq(|EcgLabels|, l requires 0 <= l < |EcgLabels| => Channel(EcgLabels[l], surface[l].samples))
  }

  // ---------------------------------------------------------------------------
  // The point record

  type Vec3 = seq<real>

  /** The row of the map's point table a point starts from. */
  datatype MainData = MainData(id: int, pos: Vec3, cathOrientation: Vec3, cathId: int)

  /** The point's metadata, already converted by `float`/`int`. */
  datatype PointMeta = PointMeta(woiFrom: real, woiTo: real, startTime: int, refAnnotation: int,
                                 mapAnnotation: int, unipolar: real, bipolar: real)

  /** Metadata a reader hands over that the point stores without looking into it. */
  type Metadata = seq<string>

  /** The contact-force pair of the reader: its metadata and its table. */
  datatype ForceData = ForceData(meta: Metadata, table: Table)

  /** What the low-level reader hands over for one point. */
  datatype RawPoint = RawPoint(meta: PointMeta, connectors: seq<string>, contactForce: Option<ForceData>,
                               ecgGainLine: string, ecgMeta: Metadata, ecg: seq<Channel>)

  datatype PointError =
    | ContactForceCast(column: string)
    | GainNotFound
    | EcgNotInt16
    | LeadsNotFound
    | NoChannelNumber(column: string)

  datatype PointRecord = PointRecord(
    id: int, pos: Vec3, cathOrientation: Vec3, cathId: int,
    woi: (real, real), startTime: int, refAnnotation: int, mapAnnotation: int,
    uniVolt: real, bipVolt: real, connectors: seq<string>, contactForce: Option<ForceData>,
    ecgGain: real, ecgMeta: Metadata, surfaceEcg: seq<Channel>, egm: seq<Channel>)

  /**
   * The contact force, when present: its metadata as given and its table
   * simplified by `dtype_simplify_dict`, which keeps the column names. Only a
   * column that does not cast can make it fail.
   */
  function ContactForce(cf: Option<ForceData>): (r: Result<Option<ForceData>, PointError>)
    ensures r.Ok? ==> (r.value.Some? <==> cf.Some?)
    ensures r.Ok? && cf.Some? ==> r.value.value.meta == cf.value.meta &&
                                  Names(r.value.value.table) == Names(cf.value.table)
    ensures r.Err? ==> cf.Some? && exists k :: 0 <= k < |cf.value.table| && r.error == ContactForceCast(cf.value.table[k].name)
  {
    match cf
    case None => Ok(None)
    case Some(f) =>
      match Dtypes.Simplify(f.table, Dtypes.DtypeSimplifyDict(), false)
      case Err(e) => Err(ContactForceCast(e.column))
      case Ok(s) =>
        Dtypes.SimplifyColumns(f.table, Dtypes.DtypeSimplifyDict(), false);
        Ok(Some(ForceData(f.meta, s)))
  }

  /** The ECG after the split: the surface channels and the electrograms. */
  datatype Split = Split(surface: seq<Channel>, egm: seq<Channel>)

  /**
   * The ECG part of the constructor: the int16 assertion, the 12-lead
   * assertion, the split by `iloc`/`drop` and, with
   * `remove_egm_header_numbers`, the renaming of both parts.
   */
  function SplitEcg(ecg: seq<Channel>, removeNumbers: bool): (r: Result<Split, PointError>)
  {
    if !FitsInt16(ecg) then Err(EcgNotInt16)
    else
      match LeadIndices(Headers(ecg))
      case None => Err(LeadsNotFound)
      case Some(inds) =>
        var surface := Pick(ecg, inds);
        var egm := Pick(ecg, Remaining(|ecg|, inds));
        if !removeNumbers then Ok(Split(surface, egm))
        else
          match StripEgm(egm)
          case Err(e) => Err(e)
          case Ok(egm') => Ok(Split(Relabel(surface), egm'))
  }

  /** What the constructor's checks leave behind: 12 surface channels and every sample an int16. */
  predicate ValidSplit(sp: Split)
  {
    |sp.surface| == |EcgLabels| &&
    (forall c, k :: 0 <= c < |sp.surface| && 0 <= k < |sp.surface[c].samples| ==> InInt16(sp.surface[c].samples[k])) &&
    (forall c, k :: 0 <= c < |sp.egm| && 0 <= k < |sp.egm[c].samples| ==> InInt16(sp.egm[c].samples[k]))
  }

  /**
   * The ECG is accepted exactly when it fits int16, has one column per lead
   * and, if the numbers are to be removed, every other column has a number.
   * Otherwise the first of these checks to fail names the error.
   */
  lemma SplitEcgOutcome(ecg: seq<Channel>, removeNumbers: bool)
    ensures var r := SplitEcg(ecg, removeNumbers);
      var inds := LeadIndices(Headers(ecg));
      (!FitsInt16(ecg) ==> r == Err(EcgNotInt16)) &&
      (FitsInt16(ecg) && inds.None? ==> r == Err(LeadsNotFound)) &&
      (r.Ok? <==> (FitsInt16(ecg) && inds.Some? &&
         (removeNumbers ==> forall k :: 0 <= k < |Remaining(|ecg|, inds.value)| ==>
            EgmLabel(ecg[Remaining(|ecg|, inds.value)[k]].name).Some?)))
  {
    var inds := LeadIndices(Headers(ecg));
    if FitsInt16(ecg) && inds.Some? && removeNumbers {
      StripPicked(ecg, inds.value);
    }
  }

  /** Every column outside the leads carries a channel number. */
  predicate EgmsNumbered(ecg: seq<Channel>, inds: seq<nat>)
  {
    forall k :: 0 <= k < |Remaining(|ecg|, inds)| ==> EgmLabel(ecg[Remaining(|ecg|, inds)[k]].name).Some?
  }

  /** The numbers can be stripped from the picked electrograms exactly when every remaining column carries one. */
  lemma StripPicked(ecg: seq<Channel>, inds: seq<nat>)
    ensures StripEgm(Pick(ecg, Remaining(|ecg|, inds))).Ok? <==> EgmsNumbered(ecg, inds)
  {
    var rest := Remaining(|ecg|, inds);
    var egm := Pick(ecg, rest);
    assert forall k :: 0 <= k < |rest| ==> egm[k] == ecg[rest[k]];
  }

  /**
   * An accepted ECG yields 12 surface channels whose samples are those of
   * the columns matching the leads, in lead order, and electrograms holding
   * the samples of all other columns in their order; every sample is an int16.
   */
  lemma SplitEcgSamples(ecg: seq<Channel>, removeNumbers: bool)
    requires SplitEcg(ecg, removeNumbers).Ok?
    ensures var sp := SplitEcg(ecg, removeNumbers).value;
      var inds := LeadIndices(Headers(ecg)).value;
      var rest := Remaining(|ecg|, inds);
      ValidSplit(sp) &&
      (forall l :: 0 <= l < |EcgLabels| ==> sp.surface[l].samples == ecg[inds[l]].samples) &&
      |sp.egm| == |rest| &&
      (forall k :: 0 <= k < |rest| ==> sp.egm[k].samples == ecg[rest[k]].samples)
  {
  }

  /**
   * The names after the split: with `remove_egm_header_numbers` the surface
   * channels are the 12 lead names and each electrogram is named by its
   * header without the number; without it the headers stay as they were.
   */
  lemma SplitEcgNames(ecg: seq<Channel>, removeNumbers: bool)
    requires SplitEcg(ecg, removeNumbers).Ok?
    ensures var sp := SplitEcg(ecg, removeNumbers).value;
      var inds := LeadIndices(Headers(ecg)).value;
      var rest := Remaining(|ecg|, inds);
      (removeNumbers ==> (Headers(sp.surface) == EcgLabels &&
         forall k :: 0 <= k < |rest| ==> Some(sp.egm[k].name) == EgmLabel(ecg[rest[k]].name))) &&
      (!removeNumbers ==> ((forall l :: 0 <= l < |EcgLabels| ==> sp.surface[l].name == ecg[inds[l]].name) &&
         forall k :: 0 <= k < |rest| ==> sp.egm[k].name == ecg[rest[k]].name))
  {
  }

  /**
   * The surface channels and the electrograms partition the columns: every
   * column is either the match of a lead or an electrogram, never both.
   */
  lemma SplitPartition(names: seq<string>, j: nat)
    requires LeadIndices(names).Some? && j < |names|
    ensures var inds := LeadIndices(names).value;
      (j in inds) != (j in Remaining(|names|, inds))
  {
    RemainingComplement(|names|, LeadIndices(names).value, j);
  }

  lemma RemainingComplement(n: nat, inds: seq<nat>, j: nat)
    requires j < n
    ensures (j in inds) != (j in Remaining(n, inds))
  {
    var js := Remaining(n, inds);
    if j in js {
      var k :| 0 <= k < |js| && js[k] == j;
    }
  }

  /** The outcome of `CartoPointDetailData(main_data, raw_data, remove_egm_header_numbers)`. */
  function Assemble(main: MainData, raw: RawPoint, removeNumbers: bool): (r: Result<PointRecord, PointError>)
  {
    match ContactForce(raw.contactForce)
    case Err(e) => Err(e)
    case Ok(cf) =>
      match GainOf(raw.ecgGainLine)
      case None => Err(GainNotFound)
      case Some(gain) =>
        match SplitEcg(raw.ecg, removeNumbers)
        case Err(e) => Err(e)
        case Ok(sp) =>
          var m := raw.meta;
          Ok(PointRecord(main.id, main.pos, main.cathOrientation, main.cathId,
                         (m.woiFrom, m.woiTo), m.startTime, m.refAnnotation, m.mapAnnotation,
                         m.unipolar, m.bipolar, raw.connectors, cf, gain, raw.ecgMeta, sp.surface, sp.egm))
  }

  /**
   * The checks in the program's order: a contact-force table that does not
   * cast, then a metadata line without the gain, then the ECG checks. A point
   * that passes them carries the metadata as given, the simplified contact
   * force, the gain and the split ECG.
   */
  lemma AssembleOutcome(main: MainData, raw: RawPoint, removeNumbers: bool)
    ensures var r := Assemble(main, raw, removeNumbers);
      var cf := ContactForce(raw.contactForce);
      var gain := GainOf(raw.ecgGainLine);
      var sp := SplitEcg(raw.ecg, removeNumbers);
      (cf.Err? ==> r == Err(cf.error)) &&
      (cf.Ok? && gain.None? ==> r == Err(GainNotFound)) &&
      (cf.Ok? && gain.Some? && sp.Err? ==> r == Err(sp.error)) &&
      (r.Ok? <==> cf.Ok? && gain.Some? && sp.Ok?) &&
      (r.Ok? ==> (r.value.id == main.id && r.value.woi == (raw.meta.woiFrom, raw.meta.woiTo) &&
         r.value.refAnnotation == raw.meta.refAnnotation && r.value.mapAnnotation == raw.meta.mapAnnotation &&
         r.value.contactForce == cf.value && r.value.ecgGain == gain.value && r.value.ecgMeta == raw.ecgMeta &&
         (raw.contactForce.Some? ==> r.value.contactForce.Some? &&
                                     r.value.contactForce.value.meta == raw.contactForce.value.meta) &&
         Split(r.value.surfaceEcg, r.value.egm) == sp.value && ValidSplit(sp.value)))
  {
    if Assemble(main, raw, removeNumbers).Ok? {
      SplitEcgSamples(raw.ecg, removeNumbers);
    }
  }

  // ---------------------------------------------------------------------------
  // The object

  /** `CartoPointDetailData`: the fields the constructor assigns one after the other. */
  class CartoPointDetailData {
    var id: int
    var pos: Vec3
    var cathOrientation: Vec3
    var cathId: int
    var woi: (real, real)
    var startTime: int
    var refAnnotation: int
    var mapAnnotation: int
    var uniVolt: real
    var bipVolt: real
    var connectors: seq<string>
    var contactForce: Option<ForceData>
    var ecgGain: real
    var ecgMetadata: Metadata
    var surfaceEcg: seq<Channel>
    var egm: seq<Channel>

    function Record(): PointRecord
      reads this
    {
      PointRecord(id, pos, cathOrientation, cathId, woi, startTime, refAnnotation, mapAnnotation,
                  uniVolt, bipVolt, connectors, contactForce, ecgGain, ecgMetadata, surfaceEcg, egm)
    }

    ghost predicate Valid()
      reads this
    {
      ValidSplit(Split(surfaceEcg, egm))
    }

    /**
     * The assignments of `__init__` once every check has passed: the easy
     * metadata, the contact force, the gain, the ECG metadata and the two parts
     * of the ECG.
     */
    constructor (main: MainData, raw: RawPoint, cf: Option<ForceData>, gain: real, sp: Split)
      ensures Record() == PointRecord(main.id, main.pos, main.cathOrientation, main.cathId,
                                      (raw.meta.woiFrom, raw.meta.woiTo), raw.meta.startTime,
                                      raw.meta.refAnnotation, raw.meta.mapAnnotation,
                                      raw.meta.unipolar, raw.meta.bipolar, raw.connectors,
                                      cf, gain, raw.ecgMeta, sp.surface, sp.egm)
    {
      id := main.id;
      pos := main.pos;
      cathOrientation := main.cathOrientation;
      cathId := main.cathId;
      woi := (raw.meta.woiFrom, raw.meta.woiTo);
      startTime := raw.meta.startTime;
      refAnnotation := raw.meta.refAnnotation;
      mapAnnotation := raw.meta.mapAnnotation;
      uniVolt := raw.meta.unipolar;
      bipVolt := raw.meta.bipolar;
      connectors := raw.connectors;
      contactForce := cf;
      ecgGain := gain;
      ecgMetadata := raw.ecgMeta;
      surfaceEcg := sp.surface;
      egm := sp.egm;
    }

    /**
     * `CartoPointDetailData.__init__`: the contact force, the gain and the
     * ECG checks in turn, each failure aborting the construction, then the
     * new object holding the assembled record.
     */
    static method Create(main: MainData, raw: RawPoint, removeNumbers: bool) returns (r: Result<CartoPointDetailData, PointError>)
      ensures r.Ok? ==> fresh(r.value) && Assemble(main, raw, removeNumbers) == Ok(r.value.Record()) && r.value.Valid()
      ensures r.Err? ==> Assemble(main, raw, removeNumbers) == Err(r.error)
    {
      var cf := ContactForce(raw.contactForce);
      if cf.Err? {
        return Err(cf.error);
      }
      var gain := GainOf(raw.ecgGainLine);
      if gain.None? {
        return Err(GainNotFound);
      }
      var sp := SplitEcg(raw.ecg, removeNumbers);
      if sp.Err? {
        return Err(sp.error);
      }
      SplitEcgSamples(raw.ecg, removeNumbers);
      var p := new CartoPointDetailData(main, raw, cf.value, gain.value, sp.value);
      r := Ok(p);
    }

    /** `main_point_pd_row`: the point's row of the map's point table. */
    function MainPointRow(): (row: PointRow)
      reads this
      ensures row.id == id && row.pos == pos && row.cathOrientation == cathOrientation && row.cathId == cathId
      ensures row.woi == woi && row.startTime == startTime && row.refAnnotation == refAnnotation && row.mapAnnotation == mapAnnotation
      ensures row.uniVolt == uniVolt && row.bipVolt == bipVolt && row.connectors == connectors && row.detail == this
    {
      PointRow(id, pos, cathOrientation, cathId, woi, startTime, refAnnotation, mapAnnotation,
               uniVolt, bipVolt, connectors, this)
    }
  }

  /**
   * The row of a point built from `main` and `raw` holds the main data, the
   * metadata and the connectors it was built from, and the point itself.
   */
  lemma AssembledRow(p: CartoPointDetailData, main: MainData, raw: RawPoint, removeNumbers: bool)
    requires Assemble(main, raw, removeNumbers) == Ok(p.Record())
    ensures var row := p.MainPointRow(); var m := raw.meta;
      row.id == main.id && row.pos == main.pos && row.cathOrientation == main.cathOrientation &&
      row.cathId == main.cathId && row.woi == (m.woiFrom, m.woiTo) && row.startTime == m.startTime &&
      row.refAnnotation == m.refAnnotation && row.mapAnnotation == m.mapAnnotation &&
      row.uniVolt == m.unipolar && row.bipVolt == m.bipolar && row.connectors == raw.connectors && row.detail == p
  {
  }

  /**
   * A row of the map's point table: the columns `id`, `pos`,
   * `cath_orientation`, `cath_id`, `woi`, `start_time`, `ref_annotation`,
   * `map_annotation`, `uni_volt`, `bip_volt`, `connectors` and `detail`.
   */
  datatype PointRow = PointRow(
    id: int, pos: Vec3, cathOrientation: Vec3, cathId: int, woi: (real, real),
    startTime: int, refAnnotation: int, mapAnnotation: int, uniVolt: real, bipVolt: real,
    connectors: seq<string>, detail: CartoPointDetailData)
}
