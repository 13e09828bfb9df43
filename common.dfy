/**
 * Shared vocabulary of the model: failure-compatible wrappers, the character
 * classes of Python's `re` module, whitespace splitting, decimal number
 * parsing and the lexicographic order on strings that NumPy uses to sort
 * column names.
 */
module Common {

  datatype Option<+T> = None | Some(value: T)

  datatype Result<+T, +E> = Ok(value: T) | Err(error: E)

  // ---------------------------------------------------------------------------
  // Character classes

  /** `\s` of a `str` pattern, which is also what `str.isspace`/`str.strip` use. */
  predicate IsSpace(c: char)
  {
    ('\t' <= c <= '\r') || ('\U{1c}' <= c <= '\U{1f}') || c == ' ' ||
    c == '\U{85}' || c == '\U{a0}' || c == '\U{1680}' ||
    ('\U{2000}' <= c <= '\U{200a}') || c == '\U{2028}' || c == '\U{2029}' ||
    c == '\U{202f}' || c == '\U{205f}' || c == '\U{3000}'
  }

  /** Every character of `s` is whitespace. */
  predicate AllSpaces(s: string)
  {
    forall k :: 0 <= k < |s| ==> IsSpace(s[k])
  }

  /** `\d`, restricted to ASCII digits. */
  predicate IsDigit(c: char)
  {
    '0' <= c <= '9'
  }

  predicate IsUpper(c: char)
  {
    'A' <= c <= 'Z'
  }

  predicate IsLower(c: char)
  {
    'a' <= c <= 'z'
  }

  predicate IsLetter(c: char)
  {
    IsUpper(c) || IsLower(c)
  }

  /** `\w`, restricted to ASCII letters, digits and the underscore. */
  predicate IsWordChar(c: char)
  {
    IsLetter(c) || IsDigit(c) || c == '_'
  }

  function ToLower(c: char): (r: char)
    ensures IsUpper(c) ==> IsLower(r)
    ensures !IsUpper(c) ==> r == c
  {
    if IsUpper(c) then (c as int + 32) as char else c
  }

  function ToUpper(c: char): (r: char)
    ensures IsLower(c) ==> IsUpper(r)
    ensures !IsLower(c) ==> r == c
  {
    if IsLower(c) then (c as int - 32) as char else c
  }

  lemma CaseRoundTrip(c: char)
    ensures IsUpper(c) ==> ToUpper(ToLower(c)) == c
    ensures IsLower(c) ==> ToLower(ToUpper(c)) == c
  {
  }

  // ---------------------------------------------------------------------------
  // Runs of characters

  /** Length of the longest prefix of `s` whose characters are all spaces. */
  function SpaceRun(s: string): (n: nat)
    ensures n <= |s|
    ensures forall k :: 0 <= k < n ==> IsSpace(s[k])
    ensures n < |s| ==> !IsSpace(s[n])
  {
    if s == [] || !IsSpace(s[0]) then 0 else 1 + SpaceRun(s[1..])
  }

  /** Length of the longest prefix of `s` without a space, the extent of `\S+`. */
  function NonSpaceRun(s: string): (n: nat)
    ensures n <= |s|
    ensures forall k :: 0 <= k < n ==> !IsSpace(s[k])
    ensures n < |s| ==> IsSpace(s[n])
  {
    if s == [] || IsSpace(s[0]) then 0 else 1 + NonSpaceRun(s[1..])
  }

  /** Length of the longest prefix of `s` made of digits, the extent of `\d+`. */
  function DigitRun(s: string): (n: nat)
    ensures n <= |s|
    ensures forall k :: 0 <= k < n ==> IsDigit(s[k])
    ensures n < |s| ==> !IsDigit(s[n])
  {
    if s == [] || !IsDigit(s[0]) then 0 else 1 + DigitRun(s[1..])
  }

  /** Length of the longest prefix of `s` made of word characters, the extent of `\w+`. */
  function WordRun(s: string): (n: nat)
    ensures n <= |s|
    ensures forall k :: 0 <= k < n ==> IsWordChar(s[k])
    ensures n < |s| ==> !IsWordChar(s[n])
  {
    if s == [] || !IsWordChar(s[0]) then 0 else 1 + WordRun(s[1..])
  }

  /** A run of spaces followed by a non-space (or the end) is exactly the space run. */
  lemma {:induction false} SpaceRunOf(p: string, s: string)
    requires forall k :: 0 <= k < |p| ==> IsSpace(p[k])
    requires s == [] || !IsSpace(s[0])
    ensures SpaceRun(p + s) == |p|
    decreases |p|
  {
    if p == [] {
      assert p + s == s;
    } else {
      assert (p + s)[1..] == p[1..] + s;
      SpaceRunOf(p[1..], s);
    }
  }

  /** A run of word characters followed by a non-word character (or the end) is exactly the word run. */
  lemma {:induction false} WordRunOf(p: string, s: string)
    requires forall k :: 0 <= k < |p| ==> IsWordChar(p[k])
    requires s == [] || !IsWordChar(s[0])
    ensures WordRun(p + s) == |p|
    decreases |p|
  {
    if p == [] {
      assert p + s == s;
    } else {
      assert (p + s)[1..] == p[1..] + s;
      WordRunOf(p[1..], s);
    }
  }

  /** `s.strip()`: drop leading and trailing whitespace. */
  function Strip(s: string): (r: string)
    ensures r != [] ==> !IsSpace(r[0]) && !IsSpace(r[|r| - 1])
  {
    var t := s[SpaceRun(s)..];
    StripRight(t)
  }

  function StripRight(s: string): (r: string)
    ensures r != [] ==> !IsSpace(r[|r| - 1])
    ensures |r| <= |s| && r == s[..|r|]
    ensures forall k :: |r| <= k < |s| ==> IsSpace(s[k])
  {
    if s == [] || !IsSpace(s[|s| - 1]) then s else StripRight(s[..|s| - 1])
  }

  predicate StartsWith(s: string, prefix: string)
  {
    |prefix| <= |s| && s[..|prefix|] == prefix
  }

  predicate EndsWith(s: string, suffix: string)
  {
    |suffix| <= |s| && s[|s| - |suffix|..] == suffix
  }

  /**
   * The maximal runs of non-space characters of `s`, left to right: what
   * `re.split("\s+", s)` yields once the empty pieces are removed.
   */
  function Words(s: string): (ws: seq<string>)
    ensures forall k :: 0 <= k < |ws| ==> ws[k] != [] && (forall c :: c in ws[k] ==> !IsSpace(c))
    decreases |s|
  {
    if s == [] then []
    else if IsSpace(s[0]) then Words(s[1..])
    else
      var n := NonSpaceRun(s);
      [s[..n]] + Words(s[n..])
  }

  lemma {:induction false} WordsOfSpaces(s: string)
    requires forall c :: c in s ==> IsSpace(c)
    ensures Words(s) == []
    decreases |s|
  {
    if s != [] {
      assert s[0] in s;
      forall c | c in s[1..] ensures IsSpace(c) { assert c in s; }
      WordsOfSpaces(s[1..]);
    }
  }

  lemma {:induction false} WordsNonEmpty(s: string)
    requires exists k :: 0 <= k < |s| && !IsSpace(s[k])
    ensures Words(s) != []
    decreases |s|
  {
    if IsSpace(s[0]) {
      var k :| 0 <= k < |s| && !IsSpace(s[k]);
      assert !IsSpace(s[1..][k - 1]);
      WordsNonEmpty(s[1..]);
    }
  }

  // ---------------------------------------------------------------------------
  // Decimal numbers

  /** Length of the optional leading `-` of `v` (the `-?` of a pattern). */
  function SignLength(v: string): (s: nat)
    ensures s <= 1 && s <= |v|
  {
    if v != [] && v[0] == '-' then 1 else 0
  }

  function DigitValue(c: char): nat
    requires IsDigit(c)
  {
    c as int - '0' as int
  }

  /** Value of a string of decimal digits. */
  function DigitsValue(s: string): nat
    requires forall k :: 0 <= k < |s| ==> IsDigit(s[k])
  {
    if s == [] then 0 else 10 * DigitsValue(s[..|s| - 1]) + DigitValue(s[|s| - 1])
  }

  function Pow10(n: nat): (p: nat)
    ensures p >= 1
  {
    if n == 0 then 1 else 10 * Pow10(n - 1)
  }

  /** Index of the first `false` flag. */
  function FirstFalse(flags: seq<bool>): (r: Option<nat>)
    ensures r.Some? ==> r.value < |flags| && !flags[r.value] && forall k :: 0 <= k < r.value ==> flags[k]
    ensures r.None? ==> forall k :: 0 <= k < |flags| ==> flags[k]
  {
    if flags == [] then None
    else if !flags[0] then Some(0)
    else
      match FirstFalse(flags[1..])
      case None => None
      case Some(k) => Some(k + 1)
  }

  predicate AllDigits(s: string)
  {
    forall k :: 0 <= k < |s| ==> IsDigit(s[k])
  }

  /**
   * Python's `int(s)` for an optionally signed decimal literal surrounded by
   * whitespace (digit-group underscores and non-ASCII digits are not modelled).
   */
  function ParseInt(s: string): (r: Option<int>)
    ensures r.Some? ==> Strip(s) != []
  {
    var t := Strip(s);
    if t == [] then None
    else
      var sign := if t[0] == '-' then -1 else 1;
      var body := if t[0] == '-' || t[0] == '+' then t[1..] else t;
      if body != [] && AllDigits(body) then Some(sign * DigitsValue(body)) else None
  }

  /**
   * A decimal literal `-?\d+(\.\d*)?` with nothing around it, as a real number
   * (exponent notation is not modelled).
   */
  function ParseDecimal(s: string): (r: Option<real>)
    ensures r.Some? ==> s != [] && (IsDigit(s[0]) || s[0] == '-')
  {
    var neg := s != [] && s[0] == '-';
    var t := if neg then s[1..] else s;
    var n := DigitRun(t);
    if n == 0 then None
    else
      var whole := DigitsValue(t[..n]) as real;
      var rest := t[n..];
      var mag :=
        if rest == [] then Some(whole)
        else if rest[0] == '.' && AllDigits(rest[1..])
        then Some(whole + DigitsValue(rest[1..]) as real / Pow10(|rest| - 1) as real)
        else None;
      match mag
      case None => None
      case Some(m) => Some(if neg then -m else m)
  }

  lemma ParseDecimalSigned()
    ensures ParseDecimal("-3.") == Some(-3.0)
    ensures ParseDecimal("7") == Some(7.0)
    ensures ParseDecimal(".5") == None
  {
    assert "-3."[1..] == "3.";
    assert DigitRun("3.") == 1;
    assert "3."[..1] == "3" && "3."[1..] == ".";
  }

  lemma ParseDecimalFraction()
    ensures ParseDecimal("12.5") == Some(12.5)
  {
    var t := "12.5";
    assert DigitRun(t) == 2;
    assert t[..2] == "12" && t[2..] == ".5" && t[2..][1..] == "5";
    assert DigitsValue("12") == 12 by { assert "12"[..1] == "1"; }
    assert DigitsValue("5") == 5;
  }

  // ---------------------------------------------------------------------------
  // Orders

  /** Strict lexicographic order on code points, the order `np.unique` sorts strings in. */
  predicate LexLess(a: string, b: string)
  {
    exists k :: 0 <= k <= |a| && k <= |b| && a[..k] == b[..k] &&
      ((k == |a| && k < |b|) || (k < |a| && k < |b| && a[k] < b[k]))
  }

  /** A recursive equivalent of `LexLess` that is easy to compute with. */
  predicate LexLessRec(a: string, b: string)
    decreases |a|
  {
    if a == [] then b != []
    else if b == [] then false
    else a[0] < b[0] || (a[0] == b[0] && LexLessRec(a[1..], b[1..]))
  }

  lemma {:induction false} LexLessRecSound(a: string, b: string)
    ensures LexLessRec(a, b) <==> LexLess(a, b)
    decreases |a|
  {
    if a == [] {
      if b != [] { assert a[..0] == b[..0]; }
    } else if b == [] {
    } else {
      LexLessRecSound(a[1..], b[1..]);
      if LexLess(a, b) {
        var k :| 0 <= k <= |a| && k <= |b| && a[..k] == b[..k] &&
          ((k == |a| && k < |b|) || (k < |a| && k < |b| && a[k] < b[k]));
        if k > 0 {
          assert a[0] == a[..k][0] == b[..k][0] == b[0];
          assert a[1..][..k - 1] == a[1..k] == a[..k][1..];
          assert b[1..][..k - 1] == b[1..k] == b[..k][1..];
          assert LexLess(a[1..], b[1..]);
        }
      }
      if LexLessRec(a, b) {
        if a[0] < b[0] {
          assert a[..0] == b[..0];
        } else {
          var k :| 0 <= k <= |a| - 1 && k <= |b| - 1 && a[1..][..k] == b[1..][..k] &&
            ((k == |a| - 1 && k < |b| - 1) || (k < |a| - 1 && k < |b| - 1 && a[1..][k] < b[1..][k]));
          assert a[..k + 1] == [a[0]] + a[1..][..k];
          assert b[..k + 1] == [b[0]] + b[1..][..k];
        }
      }
    }
  }

  lemma {:induction false} LexLessTrichotomy(a: string, b: string)
    ensures a == b || LexLessRec(a, b) || LexLessRec(b, a)
    ensures !(LexLessRec(a, b) && LexLessRec(b, a))
    ensures !LexLessRec(a, a)
    decreases |a|
  {
    if a != [] && b != [] {
      LexLessTrichotomy(a[1..], b[1..]);
      if a[0] == b[0] && a[1..] == b[1..] {
        assert a == [a[0]] + a[1..];
        assert b == [b[0]] + b[1..];
      }
    }
    if a != [] {
      LexLessTrichotomy(a[1..], a[1..]);
    }
  }

  lemma {:induction false} LexLessTransitive(a: string, b: string, c: string)
    requires LexLessRec(a, b) && LexLessRec(b, c)
    ensures LexLessRec(a, c)
    decreases |a|
  {
    if a != [] && b != [] && c != [] && a[0] == b[0] && b[0] == c[0] {
      LexLessTransitive(a[1..], b[1..], c[1..]);
    }
  }

  predicate StrictlySortedStrings(s: seq<string>)
  {
    forall i, j :: 0 <= i < j < |s| ==> LexLessRec(s[i], s[j])
  }

  /** Insert `x` into a strictly sorted list unless it is already there. */
  function InsertSorted(s: seq<string>, x: string): (r: seq<string>)
    requires StrictlySortedStrings(s)
    ensures StrictlySortedStrings(r)
    ensures forall y :: y in r <==> y in s || y == x
    decreases |s|
  {
    if s == [] then [x]
    else if s[0] == x then s
    else if LexLessRec(x, s[0]) then
      InsertFrontSorted(s, x);
      [x] + s
    else
      LexLessTrichotomy(x, s[0]);
      var t := InsertSorted(s[1..], x);
      ConsSorted(s[0], t);
      [s[0]] + t
  }

  lemma InsertFrontSorted(s: seq<string>, x: string)
    requires StrictlySortedStrings(s) && s != [] && LexLessRec(x, s[0])
    ensures StrictlySortedStrings([x] + s)
  {
    forall j | 0 < j < |s| ensures LexLessRec(x, s[j]) { LexLessTransitive(x, s[0], s[j]); }
  }

  lemma ConsSorted(h: string, t: seq<string>)
    requires StrictlySortedStrings(t)
    requires forall y :: y in t ==> LexLessRec(h, y)
    ensures StrictlySortedStrings([h] + t)
  {
    forall j | 0 <= j < |t| ensures LexLessRec(h, t[j]) { assert t[j] in t; }
  }

  /** `np.unique` of a list of strings: the sorted list of its distinct members. */
  function SortedUnique(s: seq<string>): (r: seq<string>)
    ensures StrictlySortedStrings(r)
    ensures forall y :: y in r <==> y in s
  {
    if s == [] then [] else InsertSorted(SortedUnique(s[..|s| - 1]), s[|s| - 1])
  }

  lemma {:induction false} StrictlySortedDistinct(s: seq<string>)
    requires StrictlySortedStrings(s)
    ensures forall i, j :: 0 <= i < j < |s| ==> s[i] != s[j]
  {
    forall i, j | 0 <= i < j < |s| ensures s[i] != s[j] {
      LexLessTrichotomy(s[i], s[j]);
    }
  }

  /** Remove every occurrence of `x`. */
  function Without(s: seq<string>, x: string): (r: seq<string>)
    ensures forall y :: y in r <==> y in s && y != x
    ensures |r| <= |s|
  {
    if s == [] then [] else (if s[0] == x then [] else [s[0]]) + Without(s[1..], x)
  }

  lemma {:induction false} WithoutKeepsOrder(s: seq<string>, x: string)
    requires StrictlySortedStrings(s)
    ensures StrictlySortedStrings(Without(s, x))
  {
    if s != [] {
      WithoutKeepsOrder(s[1..], x);
      var t := Without(s[1..], x);
      forall y | y in t ensures LexLessRec(s[0], y) {
        var j :| 0 <= j < |s[1..]| && s[1..][j] == y;
        assert s[1 + j] == y;
      }
      if s[0] != x { ConsSorted(s[0], t); }
    }
  }

  /** Strictly ascending list of distinct integers. */
  predicate StrictlyIncreasing(s: seq<int>)
  {
    forall i, j :: 0 <= i < j < |s| ==> s[i] < s[j]
  }

  function InsertInt(s: seq<int>, x: int): (r: seq<int>)
    requires StrictlyIncreasing(s)
    ensures StrictlyIncreasing(r)
    ensures forall y :: y in r <==> y in s || y == x
    decreases |s|
  {
    if s == [] then [x]
    else if s[0] == x then s
    else if x < s[0] then [x] + s
    else
      var rest := InsertInt(s[1..], x);
      assert forall k :: 0 <= k < |rest| ==> rest[k] in s[1..] || rest[k] == x;
      assert forall k :: 0 <= k < |rest| ==> s[0] < rest[k];
      [s[0]] + rest
  }

  /** The sorted distinct members of a list of integers (the group keys of `groupby`). */
  function SortedDistinctInts(s: seq<int>): (r: seq<int>)
    ensures StrictlyIncreasing(r)
    ensures forall y :: y in r <==> y in s
  {
    if s == [] then [] else InsertInt(SortedDistinctInts(s[..|s| - 1]), s[|s| - 1])
  }

  // ---------------------------------------------------------------------------
  // Dictionaries built from key/value pairs

  /** `dict(ps)`, a dict display or a dict comprehension: a later pair overwrites an earlier one. */
  function MapOfPairs<K(!new), V>(ps: seq<(K, V)>): (m: map<K, V>)
    ensures forall k :: k in m <==> exists i :: 0 <= i < |ps| && ps[i].0 == k
  {
    if ps == [] then map[]
    else
      var m' := MapOfPairs(ps[..|ps| - 1]);
      assert forall i :: 0 <= i < |ps| - 1 ==> ps[..|ps| - 1][i] == ps[i];
      m'[ps[|ps| - 1].0 := ps[|ps| - 1].1]
  }

  /** The value stored under a key is the one of the last pair with that key. */
  lemma {:induction false} MapOfPairsLastWins<K(!new), V>(ps: seq<(K, V)>, i: nat)
    requires i < |ps|
    requires forall j :: i < j < |ps| ==> ps[j].0 != ps[i].0
    ensures ps[i].0 in MapOfPairs(ps) && MapOfPairs(ps)[ps[i].0] == ps[i].1
    decreases |ps|
  {
    if i < |ps| - 1 {
      var init := ps[..|ps| - 1];
      assert init[i] == ps[i];
      forall j | i < j < |init| ensures init[j].0 != init[i].0 { assert init[j] == ps[j]; }
      MapOfPairsLastWins(init, i);
    }
  }
}
