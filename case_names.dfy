/**
 * The two identifier-style converters of the utilities module:
 * `camel_to_snake_case` (insert `_` before every upper-case letter that is not
 * the first character, then lower-case everything) and `snake_to_camel_case`
 * (split on `_`, title-case every piece, join, lower-case the first
 * character unless `capitalize` is set). Letters are ASCII letters.
 */
module CaseNames {
  import opened Common

  // ---------------------------------------------------------------------------
  // camel_to_snake_case

  /** `s.lower()`, character by character. */
  function Lower(s: string): (r: string)
    ensures |r| == |s|
    ensures forall k :: 0 <= k < |s| ==> r[k] == ToLower(s[k])
  {
    seq(|s|, k requires 0 <= k < |s| => ToLower(s[k]))
  }

  /**
   * The substitution of the pattern `(?<!^)(?=[A-Z])` by `_` on the part of
   * the name after its first character: every upper-case letter gets an
   * underscore in front of it.
   */
  function MarkUppers(s: string): (r: string)
  {
    if s == [] then []
    else (if IsUpper(s[0]) then ['_', s[0]] else [s[0]]) + MarkUppers(s[1..])
  }

  /** The zero-width matches are never at index 0, so the first character is kept as it is. */
  function Underscored(s: string): string
  {
    if s == [] then [] else [s[0]] + MarkUppers(s[1..])
  }

  function CamelToSnake(name: string): (r: string)
    ensures forall k :: 0 <= k < |r| ==> !IsUpper(r[k])
  {
    Lower(Underscored(name))
  }

  // ---------------------------------------------------------------------------
  // snake_to_camel_case

  /** `t.split('_')`: the pieces between underscores, empty ones included. */
  function Split(t: string): (ps: seq<string>)
    ensures |ps| >= 1
    ensures forall k :: 0 <= k < |ps| ==> '_' !in ps[k]
    decreases |t|
  {
    if t == [] then [[]]
    else
      var rest := Split(t[1..]);
      if t[0] == '_' then [[]] + rest
      else [[t[0]] + rest[0]] + rest[1..]
  }

  /** `'_'.join(ps)`. */
  function Join(ps: seq<string>): string
    requires |ps| >= 1
  {
    if |ps| == 1 then ps[0] else ps[0] + "_" + Join(ps[1..])
  }

  /** Title-casing of one character: upper case at the start of a word, lower case inside one. */
  function TitleChar(c: char, afterLetter: bool): char
  {
    if IsLetter(c) then (if afterLetter then ToLower(c) else ToUpper(c)) else c
  }

  /** `p.title()` when the character before `p` was a letter iff `afterLetter`. */
  function TitleFrom(p: string, afterLetter: bool): (r: string)
    ensures |r| == |p|
  {
    if p == [] then [] else [TitleChar(p[0], afterLetter)] + TitleFrom(p[1..], IsLetter(p[0]))
  }

  function Title(p: string): (r: string)
    ensures |r| == |p|
  {
    TitleFrom(p, false)
  }

  /** `''.join(word.title() for word in ps)`. */
  function TitleJoin(ps: seq<string>): string
  {
    if ps == [] then [] else Title(ps[0]) + TitleJoin(ps[1..])
  }

  /**
   * `snake_to_camel_case(name, capitalize)`. Lower-casing the first character
   * of an empty result raises `IndexError`, which is `None` here.
   */
  function SnakeToCamel(name: string, capitalize: bool): (r: Option<string>)
    ensures r.None? ==> !capitalize
    ensures capitalize ==> r == Some(TitleJoin(Split(name)))
  {
    var ret := TitleJoin(Split(name));
    if capitalize then Some(ret)
    else if ret == [] then None
    else Some([ToLower(ret[0])] + ret[1..])
  }

  // ---------------------------------------------------------------------------
  // A one-pass reference for split/title/join

  /**
   * One left-to-right pass over a snake-case name: underscores are dropped and
   * end a word, letters are upper-cased at the start of a word and lower-cased
   * inside one, and other characters are copied and also end a word.
   */
  function CamelPass(t: string, afterLetter: bool): (r: string)
  {
    if t == [] then []
    else if t[0] == '_' then CamelPass(t[1..], false)
    else [TitleChar(t[0], afterLetter)] + CamelPass(t[1..], IsLetter(t[0]))
  }

  /** The pieces of `Join` are given back by `Split`: the two are inverses. */
  lemma {:induction false} JoinSplit(t: string)
    ensures Join(Split(t)) == t
    decreases |t|
  {
    if t != [] {
      JoinSplit(t[1..]);
      var rest := Split(t[1..]);
      if t[0] == '_' {
        assert Join(Split(t)) == [] + "_" + Join(rest);
      } else if |rest| == 1 {
        assert Join(Split(t)) == [t[0]] + rest[0];
      } else {
        assert Join(Split(t)) == [t[0]] + rest[0] + "_" + Join(rest[1..]);
        assert Join(rest) == rest[0] + "_" + Join(rest[1..]);
      }
    }
  }

  lemma {:induction false} SplitJoin(ps: seq<string>)
    requires |ps| >= 1
    requires forall k :: 0 <= k < |ps| ==> '_' !in ps[k]
    ensures Split(Join(ps)) == ps
    decreases |ps|, |ps[0]|
  {
    if ps[0] == [] {
      if |ps| > 1 {
        SplitJoin(ps[1..]);
        var t := Join(ps);
        assert t == "_" + Join(ps[1..]);
        assert t[1..] == Join(ps[1..]);
        assert Split(t) == [[]] + ps[1..];
      }
    } else {
      var c := ps[0][0];
      var ps' := [ps[0][1..]] + ps[1..];
      assert c in ps[0];
      forall k | 0 <= k < |ps'| ensures '_' !in ps'[k] {
        if k == 0 {
          forall x | x in ps[0][1..] ensures x != '_' { assert x in ps[0]; }
        } else {
          assert ps'[k] == ps[k];
        }
      }
      SplitJoin(ps');
      var t := Join(ps);
      if |ps| == 1 {
        assert t == [c] + Join(ps');
      } else {
        assert t == [c] + ps[0][1..] + "_" + Join(ps[1..]);
        assert Join(ps') == ps[0][1..] + "_" + Join(ps[1..]);
      }
      assert t[0] == c && t[1..] == Join(ps');
      assert Split(t) == [[c] + ps'[0]] + ps'[1..];
      assert [c] + ps'[0] == ps[0];
      assert ps'[1..] == ps[1..];
    }
  }

  /** Titling the pieces of `Split(t)` and joining them is the one-pass `CamelPass`. */
  lemma {:induction false} TitleJoinPass(t: string, afterLetter: bool)
    ensures TitleFrom(Split(t)[0], afterLetter) + TitleJoin(Split(t)[1..]) == CamelPass(t, afterLetter)
    decreases |t|
  {
    if t != [] {
      var rest := Split(t[1..]);
      if t[0] == '_' {
        TitleJoinPass(t[1..], false);
        assert Split(t)[1..] == rest;
        assert TitleJoin(rest) == Title(rest[0]) + TitleJoin(rest[1..]);
      } else {
        TitleJoinPass(t[1..], IsLetter(t[0]));
        var p := [t[0]] + rest[0];
        assert Split(t)[0] == p && Split(t)[1..] == rest[1..];
        assert p[1..] == rest[0];
      }
    }
  }

  /** `snake_to_camel_case` stated through the one-pass reference. */
  lemma SnakeToCamelPass(name: string, capitalize: bool)
    ensures var pass := CamelPass(name, false);
      SnakeToCamel(name, capitalize) ==
        if capitalize then Some(pass)
        else if pass == [] then None
        else Some([ToLower(pass[0])] + pass[1..])
  {
    TitleJoinPass(name, false);
    var ps := Split(name);
    assert TitleJoin(ps) == Title(ps[0]) + TitleJoin(ps[1..]);
  }

  /** The result has no underscores, and only a name made of underscores gives nothing. */
  lemma {:induction false} CamelPassShape(t: string, afterLetter: bool)
    ensures '_' !in CamelPass(t, afterLetter)
    ensures CamelPass(t, afterLetter) == [] <==> forall k :: 0 <= k < |t| ==> t[k] == '_'
    decreases |t|
  {
    if t != [] {
      CamelPassShape(t[1..], false);
      CamelPassShape(t[1..], IsLetter(t[0]));
      if t[0] == '_' {
        if forall k :: 0 <= k < |t[1..]| ==> t[1..][k] == '_' {
          forall k | 0 <= k < |t| ensures t[k] == '_' {
            if k > 0 { assert t[k] == t[1..][k - 1]; }
          }
        }
      } else {
        assert TitleChar(t[0], afterLetter) != '_';
      }
    }
  }

  lemma SnakeToCamelShape(name: string, capitalize: bool)
    ensures SnakeToCamel(name, capitalize).None? <==>
      !capitalize && forall k :: 0 <= k < |name| ==> name[k] == '_'
    ensures SnakeToCamel(name, capitalize).Some? ==> '_' !in SnakeToCamel(name, capitalize).value
  {
    SnakeToCamelPass(name, capitalize);
    CamelPassShape(name, false);
    var pass := CamelPass(name, false);
    if !capitalize && pass != [] {
      assert pass[0] in pass;
      forall x | x in pass[1..] ensures x != '_' { assert x in pass; }
    }
  }

  // ---------------------------------------------------------------------------
  // Round trip

  predicate IsLetters(s: string)
  {
    forall k :: 0 <= k < |s| ==> IsLetter(s[k])
  }

  lemma {:induction false} MarkUppersPass(r: string)
    requires IsLetters(r)
    ensures CamelPass(Lower(MarkUppers(r)), true) == r
    decreases |r|
  {
    if r != [] {
      var c := r[0];
      var tail := Lower(MarkUppers(r[1..]));
      assert IsLetters(r[1..]) by {
        forall k | 0 <= k < |r[1..]| ensures IsLetter(r[1..][k]) { assert r[1..][k] == r[k + 1]; }
      }
      MarkUppersPass(r[1..]);
      var head := if IsUpper(c) then ['_', c] else [c];
      assert r == [c] + r[1..];
      MarkUppersCons(c, r[1..]);
      LowerConcat(head, MarkUppers(r[1..]));
      if IsUpper(c) {
        assert Lower(head) == ['_', ToLower(c)];
        CamelPassUpper(c, tail, r[1..]);
      } else {
        assert Lower(head) == [c];
        CamelPassCons(c, tail, true);
      }
    }
  }

  /** A marked and lowered upper-case letter comes back upper-case. */
  lemma CamelPassUpper(c: char, tail: string, rest: string)
    requires IsUpper(c) && CamelPass(tail, true) == rest
    ensures CamelPass(['_', ToLower(c)] + tail, true) == [c] + rest
  {
    var lc := ToLower(c);
    assert ['_', lc] + tail == ['_'] + ([lc] + tail);
    CamelPassCons('_', [lc] + tail, true);
    CamelPassCons(lc, tail, false);
    CaseRoundTrip(c);
  }

  /**
   * For a non-empty ASCII-letter name that starts lower-case,
   * `snake_to_camel_case` undoes `camel_to_snake_case`.
   */
  lemma CamelSnakeRoundTrip(s: string)
    requires s != [] && IsLetters(s) && IsLower(s[0])
    ensures SnakeToCamel(CamelToSnake(s), false) == Some(s)
  {
    var t := CamelToSnake(s);
    assert IsLetters(s[1..]) by {
      forall k | 0 <= k < |s[1..]| ensures IsLetter(s[1..][k]) { assert s[1..][k] == s[k + 1]; }
    }
    MarkUppersPass(s[1..]);
    var tail := Lower(MarkUppers(s[1..]));
    assert t == [s[0]] + tail;
    assert t[0] == s[0] && t[1..] == tail;
    var pass := CamelPass(t, false);
    assert pass == [ToUpper(s[0])] + s[1..];
    SnakeToCamelPass(t, false);
    CaseRoundTrip(s[0]);
    assert s == [s[0]] + s[1..];
  }

  /**
   * Lower-case words joined by single underscores: every character is a
   * lower-case letter, or an underscore with a lower-case letter right after
   * it (so there is no leading-in-pair, doubled or trailing underscore).
   */
  predicate SnakeWords(t: string)
  {
    forall k :: 0 <= k < |t| ==> IsLower(t[k]) || (t[k] == '_' && k + 1 < |t| && IsLower(t[k + 1]))
  }

  lemma SnakeWordsTail(t: string, d: nat)
    requires SnakeWords(t) && d <= |t|
    ensures SnakeWords(t[d..])
  {
    forall k | 0 <= k < |t[d..]|
      ensures IsLower(t[d..][k]) || (t[d..][k] == '_' && k + 1 < |t[d..]| && IsLower(t[d..][k + 1]))
    {
      var j := d + k;
      assert t[d..][k] == t[j];
      assert IsLower(t[j]) || (t[j] == '_' && j + 1 < |t| && IsLower(t[j + 1]));
      if k + 1 < |t[d..]| {
        assert t[d..][k + 1] == t[j + 1];
      }
    }
  }

  lemma LowerConcat(a: string, b: string)
    ensures Lower(a + b) == Lower(a) + Lower(b)
  {
    assert forall k :: 0 <= k < |a + b| ==> Lower(a + b)[k] == (Lower(a) + Lower(b))[k];
  }

  lemma MarkUppersCons(c: char, x: string)
    ensures MarkUppers([c] + x) == (if IsUpper(c) then ['_', c] else [c]) + MarkUppers(x)
  {
    assert ([c] + x)[0] == c && ([c] + x)[1..] == x;
  }

  /**
   * After a letter, the camel pass of a snake-case tail is turned back into
   * that tail by marking its upper-case letters and lowering everything.
   */
  lemma {:induction false} PassMarkLower(t: string)
    requires SnakeWords(t)
    ensures Lower(MarkUppers(CamelPass(t, true))) == t
    decreases |t|
  {
    if t != [] {
      assert IsLower(t[0]) || (t[0] == '_' && 1 < |t| && IsLower(t[1]));
      if t[0] == '_' {
        var d, rest := t[1], t[2..];
        SnakeWordsTail(t, 2);
        PassMarkLower(rest);
        var x := CamelPass(rest, true);
        assert t == ['_'] + ([d] + rest);
        CamelPassCons('_', [d] + rest, true);
        CamelPassCons(d, rest, false);
        MarkUppersCons(ToUpper(d), x);
        LowerConcat(['_', ToUpper(d)], MarkUppers(x));
        CaseRoundTrip(d);
        assert Lower(['_', ToUpper(d)]) == ['_', d];
      } else {
        var c, rest := t[0], t[1..];
        SnakeWordsTail(t, 1);
        PassMarkLower(rest);
        var x := CamelPass(rest, true);
        assert t == [c] + rest;
        CamelPassCons(c, rest, true);
        assert TitleChar(c, true) == c;
        MarkUppersCons(c, x);
        LowerConcat([c], MarkUppers(x));
        assert Lower([c]) == [c];
      }
    }
  }

  /**
   * For lower-case words joined by single underscores, `camel_to_snake_case`
   * undoes `snake_to_camel_case`. With `CamelSnakeRoundTrip` the two
   * conversions are inverses between such names and letter names that start
   * lower-case.
   */
  lemma SnakeCamelRoundTrip(t: string)
    requires t != [] && IsLower(t[0]) && SnakeWords(t)
    ensures SnakeToCamel(t, false).Some? && CamelToSnake(SnakeToCamel(t, false).value) == t
  {
    var c, rest := t[0], t[1..];
    SnakeWordsTail(t, 1);
    PassMarkLower(rest);
    var x := CamelPass(rest, true);
    assert t == [c] + rest;
    CamelPassCons(c, rest, false);
    SnakeToCamelPass(t, false);
    CaseRoundTrip(c);
    var s := [c] + x;
    assert SnakeToCamel(t, false) == Some(s);
    assert s[0] == c && s[1..] == x;
    assert Underscored(s) == [c] + MarkUppers(x);
    LowerConcat([c], MarkUppers(x));
  }

  /** The snake-case form of a letter name that starts lower-case is made of lower-case words joined by single underscores. */
  lemma CamelToSnakeWords(s: string)
    requires s != [] && IsLetters(s) && IsLower(s[0])
    ensures var t := CamelToSnake(s); t != [] && IsLower(t[0]) && SnakeWords(t)
  {
    assert IsLetters(s[1..]) by {
      forall k | 0 <= k < |s[1..]| ensures IsLetter(s[1..][k]) { assert s[1..][k] == s[k + 1]; }
    }
    MarkedWords(s[1..]);
    var m := MarkUppers(s[1..]);
    assert Underscored(s) == [s[0]] + m;
    LowerConcat([s[0]], m);
    assert Lower([s[0]]) == [s[0]];
    SnakeWordsCons(s[0], Lower(m));
  }

  lemma SnakeWordsCons(c: char, l: string)
    requires IsLower(c) && SnakeWords(l)
    ensures SnakeWords([c] + l)
  {
    var t := [c] + l;
    forall k | 0 <= k < |t| ensures IsLower(t[k]) || (t[k] == '_' && k + 1 < |t| && IsLower(t[k + 1])) {
      if k > 0 {
        assert t[k] == l[k - 1];
        assert IsLower(l[k - 1]) || (l[k - 1] == '_' && k < |l| && IsLower(l[k]));
        if k + 1 < |t| {
          assert t[k + 1] == l[k];
        }
      }
    }
  }

  /**
   * Marking the upper-case letters of a letter string puts an underscore
   * only right before a letter, and lowering then leaves lower-case letters
   * and such underscores.
   */
  lemma {:induction false} MarkedWords(r: string)
    requires IsLetters(r)
    ensures SnakeWords(Lower(MarkUppers(r)))
    decreases |r|
  {
    if r != [] {
      var c := r[0];
      assert IsLetters(r[1..]) by {
        forall k | 0 <= k < |r[1..]| ensures IsLetter(r[1..][k]) { assert r[1..][k] == r[k + 1]; }
      }
      MarkedWords(r[1..]);
      var tail := Lower(MarkUppers(r[1..]));
      var head := if IsUpper(c) then ['_', c] else [c];
      assert r == [c] + r[1..];
      MarkUppersCons(c, r[1..]);
      LowerConcat(head, MarkUppers(r[1..]));
      var lh := Lower(head);
      assert Lower(MarkUppers(r)) == lh + tail;
      assert IsLower(lh[|lh| - 1]) && SnakeWords(lh);
      SnakeWordsConcat(lh, tail);
    }
  }

  /** Snake words followed by snake words, when the first part ends in a lower-case letter. */
  lemma SnakeWordsConcat(a: string, b: string)
    requires SnakeWords(a) && SnakeWords(b) && a != [] && IsLower(a[|a| - 1])
    ensures SnakeWords(a + b)
  {
    var l := a + b;
    forall k | 0 <= k < |l| ensures IsLower(l[k]) || (l[k] == '_' && k + 1 < |l| && IsLower(l[k + 1])) {
      if k >= |a| {
        var j := k - |a|;
        assert l[k] == b[j];
        assert IsLower(b[j]) || (b[j] == '_' && j + 1 < |b| && IsLower(b[j + 1]));
        if j + 1 < |b| {
          assert l[k + 1] == b[j + 1];
        }
      } else {
        assert l[k] == a[k];
        assert IsLower(a[k]) || (a[k] == '_' && k + 1 < |a| && IsLower(a[k + 1]));
        if k + 1 < |a| {
          assert l[k + 1] == a[k + 1];
        }
      }
    }
  }

  lemma CamelPassCons(c: char, t: string, afterLetter: bool)
    ensures CamelPass([c] + t, afterLetter) ==
      if c == '_' then CamelPass(t, false) else [TitleChar(c, afterLetter)] + CamelPass(t, IsLetter(c))
  {
    assert ([c] + t)[0] == c && ([c] + t)[1..] == t;
  }

  /** An underscore ends a word, so the pass restarts after it. */
  lemma {:induction false} CamelPassAfterUnderscore(x: string, y: string, afterLetter: bool)
    requires x != [] && x[|x| - 1] == '_'
    ensures CamelPass(x + y, afterLetter) == CamelPass(x, afterLetter) + CamelPass(y, false)
    decreases |x|
  {
    assert (x + y)[0] == x[0] && (x + y)[1..] == x[1..] + y;
    if |x| > 1 {
      CamelPassAfterUnderscore(x[1..], y, if x[0] == '_' then false else IsLetter(x[0]));
    } else {
      assert x[1..] + y == y;
    }
  }

  /** Both conversions of `name` once the one-pass result is known. */
  lemma SnakeToCamelFromPass(name: string, pass: string)
    requires CamelPass(name, false) == pass && pass != []
    ensures SnakeToCamel(name, true) == Some(pass)
    ensures SnakeToCamel(name, false) == Some([ToLower(pass[0])] + pass[1..])
  {
    SnakeToCamelPass(name, false);
    SnakeToCamelPass(name, true);
  }

  /** The expected camel-case strings of the unit tests, with their first letter lowered. */
  lemma LowerFirstOfExpected()
    ensures [ToLower('C')] + "CamelCase"[1..] == "camelCase"
  {
  }

  /** Lower-case letters after a letter pass through unchanged. */
  lemma {:induction false} PassLowerRun(w: string, tail: string)
    requires forall k :: 0 <= k < |w| ==> IsLower(w[k])
    ensures CamelPass(w + tail, true) == w + CamelPass(tail, true)
    decreases |w|
  {
    if w != [] {
      var c, rest := w[0], w[1..];
      assert w + tail == [c] + (rest + tail);
      CamelPassCons(c, rest + tail, true);
      assert TitleChar(c, true) == c && IsLetter(c);
      PassLowerRun(rest, tail);
      assert [c] + (rest + CamelPass(tail, true)) == w + CamelPass(tail, true);
    } else {
      assert w + tail == tail;
    }
  }

  /** A lower-case word followed by an underscore is title-cased and the pass restarts. */
  lemma PassWord(c: char, rest: string, tail: string)
    requires IsLower(c) && forall k :: 0 <= k < |rest| ==> IsLower(rest[k])
    ensures CamelPass([c] + rest + "_" + tail, false) == [ToUpper(c)] + rest + CamelPass(tail, false)
  {
    var t := [c] + rest + "_" + tail;
    assert t[0] == c && t[1..] == rest + ("_" + tail);
    PassLowerRun(rest, "_" + tail);
    CamelPassCons('_', tail, true);
  }

  /** The same for the last word. */
  lemma PassLastWord(c: char, rest: string)
    requires IsLower(c) && forall k :: 0 <= k < |rest| ==> IsLower(rest[k])
    ensures CamelPass([c] + rest, false) == [ToUpper(c)] + rest
  {
    var t := [c] + rest;
    assert t[0] == c && t[1..] == rest + [];
    PassLowerRun(rest, []);
  }

  /** The cases of the unit tests, in both capitalisations. */
  lemma SnakeToCamelCamelCase(a: string)
    requires a == "camel_case"
    ensures SnakeToCamel(a, false) == Some("camelCase")
    ensures SnakeToCamel(a, true) == Some("CamelCase")
  {
    assert a == ['c'] + "amel" + "_" + "case";
    PassWord('c', "amel", "case");
    assert "case" == ['c'] + "ase";
    PassLastWord('c', "ase");
    SnakeToCamelFromPass(a, "CamelCase");
    LowerFirstOfExpected();
  }

  lemma SnakeToCamelImportantVar(b: string, o: string, a: string, v: string)
    requires v == "var" && a == "ant_" + v && o == "ort_" + a && b == "imp_" + o
    ensures SnakeToCamel(b, false) == Some("impOrtAntVar")
    ensures SnakeToCamel(b, true) == Some("ImpOrtAntVar")
  {
    PassImpOrtAntVar(b, o, a, v);
    SnakeToCamelFromPass(b, "ImpOrtAntVar");
    assert [ToLower('I')] + "ImpOrtAntVar"[1..] == "impOrtAntVar";
  }

  lemma PassImpOrtAntVar(b: string, o: string, a: string, v: string)
    requires v == "var" && a == "ant_" + v && o == "ort_" + a && b == "imp_" + o
    ensures CamelPass(b, false) == "ImpOrtAntVar"
  {
    PassOrtAntVar(o, a, v);
    assert b == ['i'] + "mp" + "_" + o;
    PassWord('i', "mp", o);
  }

  lemma PassOrtAntVar(o: string, a: string, v: string)
    requires v == "var" && a == "ant_" + v && o == "ort_" + a
    ensures CamelPass(o, false) == "OrtAntVar"
  {
    PassAntVar(a, v);
    assert o == ['o'] + "rt" + "_" + a;
    PassWord('o', "rt", a);
  }

  lemma PassAntVar(a: string, v: string)
    requires v == "var" && a == "ant_" + v
    ensures CamelPass(a, false) == "AntVar"
  {
    assert v == ['v'] + "ar";
    PassLastWord('v', "ar");
    assert a == ['a'] + "nt" + "_" + v;
    PassWord('a', "nt", v);
  }
}
