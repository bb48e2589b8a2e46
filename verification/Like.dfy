/**
 SQL LIKE with `\` as the escape character, and the escaping that the search endpoints
 apply to user input (`_escape_ilike` in news.py and unified_search.py).
 */
module Like {
  import opened Basics

  // ---- LIKE and ILIKE ---------------------------------------------------

  /**
   `%` matches any run of characters, `_` any one character, and `\` makes the next
   character literal. A pattern ending in a lone `\` is an error in SQL and matches nothing here.
   */
  predicate Matches(s: string, p: string)
    decreases |p|, |s|
  {
    if p == "" then s == ""
    else if p[0] == '%' then Matches(s, p[1..]) || (s != "" && Matches(s[1..], p))
    else if p[0] == '\\' then |p| > 1 && s != "" && s[0] == p[1] && Matches(s[1..], p[2..])
    else s != "" && (p[0] == '_' || s[0] == p[0]) && Matches(s[1..], p[1..])
  }

  function Folded(fold: char -> char, s: string): string { seq(|s|, i requires 0 <= i < |s| => fold(s[i])) }

  /** ILIKE folds the case of both sides and then matches. */
  predicate MatchesFolded(fold: char -> char, s: string, p: string) {
    Matches(Folded(fold, s), Folded(fold, p))
  }

  predicate Special(c: char) { c == '\\' || c == '%' || c == '_' }

  /** Case folding neither touches the three special characters nor produces them. */
  ghost predicate KeepsSpecials(fold: char -> char) {
    && fold('\\') == '\\' && fold('%') == '%' && fold('_') == '_'
    && forall c :: Special(fold(c)) ==> Special(c)
  }

  // ---- the escaping -----------------------------------------------------

  /** `str.replace` with a one-character needle. */
  function Replace(s: string, needle: char, put: string): string {
    if s == "" then "" else (if s[0] == needle then put else [s[0]]) + Replace(s[1..], needle, put)
  }

  function EscapeIlike(value: string): string {
    Replace(Replace(Replace(value, '\\', "\\\\"), '%', "\\%"), '_', "\\_")
  }

  function EscapePiece(c: char): string { if Special(c) then ['\\', c] else [c] }

  /** The same, one character at a time. */
  function EscapeEach(value: string): string {
    if value == "" then "" else EscapePiece(value[0]) + EscapeEach(value[1..])
  }

  lemma {:induction false} ReplaceConcat(a: string, b: string, needle: char, put: string)
    ensures Replace(a + b, needle, put) == Replace(a, needle, put) + Replace(b, needle, put)
  {
    if a == "" {
      assert a + b == b;
    } else {
      TailOfConcat(a, b);
      ReplaceConcat(a[1..], b, needle, put);
      Regroup(if a[0] == needle then put else [a[0]], Replace(a[1..], needle, put), Replace(b, needle, put));
    }
  }

  lemma ReplaceOne(c: char, needle: char, put: string)
    ensures Replace([c], needle, put) == if c == needle then put else [c]
  {}

  lemma ReplaceTwo(a: char, b: char, needle: char, put: string)
    requires a != needle
    ensures Replace([a, b], needle, put) == [a] + (if b == needle then put else [b])
  {
    assert [a, b] == [a] + [b];
    ReplaceConcat([a], [b], needle, put);
    ReplaceOne(a, needle, put);
    ReplaceOne(b, needle, put);
  }

  /** The three replacements turn one character into its escaped form. */
  lemma PieceByPiece(c: char)
    ensures EscapeIlike([c]) == EscapePiece(c)
  {
    ReplaceOne(c, '\\', "\\\\");
    if c == '\\' {
      ReplaceTwo('\\', '\\', '%', "\\%");
      ReplaceTwo('\\', '\\', '_', "\\_");
    } else {
      ReplaceOne(c, '%', "\\%");
      if c == '%' {
        ReplaceTwo('\\', '%', '_', "\\_");
      } else {
        ReplaceOne(c, '_', "\\_");
      }
    }
  }

  lemma EscapeConcat(a: string, b: string)
    ensures EscapeIlike(a + b) == EscapeIlike(a) + EscapeIlike(b)
  {
    var a1, b1 := Replace(a, '\\', "\\\\"), Replace(b, '\\', "\\\\");
    ReplaceConcat(a, b, '\\', "\\\\");
    ReplaceConcat(a1, b1, '%', "\\%");
    ReplaceConcat(Replace(a1, '%', "\\%"), Replace(b1, '%', "\\%"), '_', "\\_");
  }

  /** The three sequential replaces escape each special character exactly once. */
  lemma {:induction false} EscapesEachOnce(value: string)
    ensures EscapeIlike(value) == EscapeEach(value)
  {
    if value != "" {
      assert value == [value[0]] + value[1..];
      EscapeConcat([value[0]], value[1..]);
      PieceByPiece(value[0]);
      EscapesEachOnce(value[1..]);
    }
  }

  // ---- what an escaped pattern matches ----------------------------------

  /** An escaped text at the front of a pattern matches exactly itself. */
  lemma {:induction false} LiteralPrefix(s: string, v: string, rest: string)
    ensures Matches(s, EscapeEach(v) + rest) <==> v <= s && Matches(s[|v|..], rest)
    decreases |v|
  {
    if v == "" {
      assert EscapeEach(v) + rest == rest;
      assert s[0..] == s;
    } else {
      var tail := EscapeEach(v[1..]) + rest;
      assert EscapeEach(v) + rest == EscapePiece(v[0]) + tail;
      LiteralStep(s, v[0], tail);
      if s != "" {
        LiteralPrefix(s[1..], v[1..], rest);
        if s[0] == v[0] {
          PrefixStep(s, v);
        }
      }
    }
  }

  lemma PrefixStep(s: string, v: string)
    requires s != "" && v != "" && s[0] == v[0]
    ensures v <= s <==> v[1..] <= s[1..]
    ensures v <= s ==> s[|v|..] == s[1..][|v[1..]|..]
  {}

  lemma LiteralStep(s: string, c: char, tail: string)
    ensures Matches(s, EscapePiece(c) + tail) <==> s != "" && s[0] == c && Matches(s[1..], tail)
  {}

  /** A leading `%` skips any number of characters. */
  lemma {:induction false} PercentSkips(s: string, rest: string)
    ensures Matches(s, "%" + rest) <==> exists i :: 0 <= i <= |s| && Matches(s[i..], rest)
    decreases |s|
  {
    var p := "%" + rest;
    assert p[0] == '%' && p[1..] == rest;
    assert s[0..] == s;
    if s != "" {
      PercentSkips(s[1..], rest);
      forall i | 0 <= i < |s| ensures s[i + 1..] == s[1..][i..] {}
      if i :| 0 <= i <= |s[1..]| && Matches(s[1..][i..], rest) {
        assert Matches(s[i + 1..], rest);
      }
      if i :| 0 <= i <= |s| && Matches(s[i..], rest) {
        assert i > 0 ==> s[1..][i - 1..] == s[i..];
      }
    }
  }

  ghost predicate Contains(s: string, v: string) {
    exists i :: 0 <= i <= |s| && v <= s[i..]
  }

  lemma PercentMatchesAll(s: string)
    ensures Matches(s, "%")
  {}

  /** The search pattern built from v accepts exactly the texts that contain v. */
  lemma PatternFindsSubstring(s: string, v: string)
    ensures Matches(s, "%" + EscapeIlike(v) + "%") <==> Contains(s, v)
  {
    var rest := EscapeEach(v) + "%";
    EscapesEachOnce(v);
    assert "%" + EscapeIlike(v) + "%" == "%" + rest;
    PercentSkips(s, rest);
    forall i | 0 <= i <= |s| ensures Matches(s[i..], rest) <==> v <= s[i..] {
      LiteralPrefix(s[i..], v, "%");
      if v <= s[i..] {
        PercentMatchesAll(s[i..][|v|..]);
      }
    }
  }

  lemma {:induction false} FoldEscapes(fold: char -> char, v: string)
    requires KeepsSpecials(fold)
    ensures Folded(fold, EscapeEach(v)) == EscapeEach(Folded(fold, v))
  {
    if v == "" {
      assert Folded(fold, "") == "";
    } else {
      FoldEscapes(fold, v[1..]);
      var f := Folded(fold, v);
      assert f[0] == fold(v[0]) && f[1..] == Folded(fold, v[1..]);
      FoldPiece(fold, v[0]);
      FoldConcat(fold, EscapePiece(v[0]), EscapeEach(v[1..]));
    }
  }

  lemma FoldPiece(fold: char -> char, c: char)
    requires KeepsSpecials(fold)
    ensures Folded(fold, EscapePiece(c)) == EscapePiece(fold(c))
  {
    assert Special(fold(c)) <==> Special(c);
  }

  lemma FoldConcat(fold: char -> char, a: string, b: string)
    ensures Folded(fold, a + b) == Folded(fold, a) + Folded(fold, b)
  {}

  /** With case folding: a row is found if and only if the query occurs in it up to case. */
  lemma SearchFindsSubstring(fold: char -> char, s: string, v: string)
    requires KeepsSpecials(fold)
    ensures MatchesFolded(fold, s, "%" + EscapeIlike(v) + "%") <==> Contains(Folded(fold, s), Folded(fold, v))
  {
    var p := "%" + EscapeIlike(v) + "%";
    EscapesEachOnce(v);
    EscapesEachOnce(Folded(fold, v));
    FoldEscapes(fold, v);
    assert Folded(fold, p) == "%" + EscapeIlike(Folded(fold, v)) + "%";
    PatternFindsSubstring(Folded(fold, s), Folded(fold, v));
  }

  /** Escaping the backslash last would escape the escapes: the order of the replaces matters. */
  lemma OrderMatters()
    ensures Replace(Replace("%", '%', "\\%"), '\\', "\\\\") != EscapeIlike("%")
  {}
}
