/** The LIKE pattern under which usage is charged to a budget (internal/budget/store.go), with
    LIKE as section 9.7.1 of the PostgreSQL manual defines it for the escape character `\`. */
module LikePattern {

  /** strings.ReplaceAll for a one-character old string. */
  function ReplaceChar(s: string, old_: char, with: string): string {
    if s == "" then "" else (if s[0] == old_ then with else [s[0]]) + ReplaceChar(s[1..], old_, with)
  }

  function EscapeLikeWildcards(s: string): string {
    var s1 := ReplaceChar(s, '\\', "\\\\");
    var s2 := ReplaceChar(s1, '%', "\\%");
    ReplaceChar(s2, '_', "\\_")
  }

  function UsagePathLikePattern(userPath: string): string {
    if userPath == "/" then "/%" else EscapeLikeWildcards(userPath) + "/%"
  }

  predicate IsWildcard(c: char) { c == '\\' || c == '%' || c == '_' }

  /** Escaping one character at a time. */
  function Escaped(s: string): string {
    if s == "" then "" else (if IsWildcard(s[0]) then ['\\', s[0]] else [s[0]]) + Escaped(s[1..])
  }

  lemma {:induction false} ReplaceCharAppend(a: string, b: string, c: char, with: string)
    ensures ReplaceChar(a + b, c, with) == ReplaceChar(a, c, with) + ReplaceChar(b, c, with)
  {
    if a == "" {
      assert a + b == b;
    } else {
      assert (a + b)[1..] == a[1..] + b;
      ReplaceCharAppend(a[1..], b, c, with);
    }
  }

  lemma EscapeAppend(a: string, b: string)
    ensures EscapeLikeWildcards(a + b) == EscapeLikeWildcards(a) + EscapeLikeWildcards(b)
  {
    ReplaceCharAppend(a, b, '\\', "\\\\");
    var a1, b1 := ReplaceChar(a, '\\', "\\\\"), ReplaceChar(b, '\\', "\\\\");
    ReplaceCharAppend(a1, b1, '%', "\\%");
    var a2, b2 := ReplaceChar(a1, '%', "\\%"), ReplaceChar(b1, '%', "\\%");
    ReplaceCharAppend(a2, b2, '_', "\\_");
  }

  lemma ReplaceInTwo(x: char, y: char, c: char, with: string)
    ensures ReplaceChar([x], c, with) == if x == c then with else [x]
    ensures ReplaceChar([y], c, with) == if y == c then with else [y]
    ensures ReplaceChar([x, y], c, with) == ReplaceChar([x], c, with) + ReplaceChar([y], c, with)
  {
    ReplaceCharAppend([x], [y], c, with);
    assert [x] + [y] == [x, y];
  }

  lemma EscapeOneChar(c: char)
    ensures EscapeLikeWildcards([c]) == if IsWildcard(c) then ['\\', c] else [c]
  {
    hide ReplaceChar;
    ReplaceInTwo(c, c, '\\', "\\\\");
    if c == '\\' {
      assert ReplaceChar([c], '\\', "\\\\") == [c, c];
      ReplaceInTwo(c, c, '%', "\\%");
      assert ReplaceChar([c, c], '%', "\\%") == [c, c];
      ReplaceInTwo(c, c, '_', "\\_");
    } else if c == '%' {
      ReplaceInTwo(c, c, '%', "\\%");
      assert ReplaceChar([c], '%', "\\%") == ['\\', c];
      ReplaceInTwo('\\', c, '_', "\\_");
    } else {
      ReplaceInTwo(c, c, '%', "\\%");
      ReplaceInTwo(c, c, '_', "\\_");
    }
  }

  /** The passes do not disturb each other: the backslashes one inserts are not escaped again. */
  lemma {:induction false} EscapeIsOnePass(s: string)
    ensures EscapeLikeWildcards(s) == Escaped(s)
  {
    if s != "" {
      hide EscapeLikeWildcards;
      EscapeIsOnePass(s[1..]);
      EscapeAppend([s[0]], s[1..]);
      EscapeOneChar(s[0]);
      assert [s[0]] + s[1..] == s;
    }
  }

  /** t LIKE p ESCAPE '\'.  A pattern ending in the escape character is an error in SQL and
      matches nothing here. */
  predicate Like(t: string, p: string)
    decreases |t| + |p|
  {
    if p == "" then t == ""
    else if p[0] == '%' then Like(t, p[1..]) || (t != "" && Like(t[1..], p))
    else if p[0] == '_' then t != "" && Like(t[1..], p[1..])
    else if p[0] == '\\' then |p| > 1 && t != "" && t[0] == p[1] && Like(t[1..], p[2..])
    else t != "" && t[0] == p[0] && Like(t[1..], p[1..])
  }

  lemma {:induction false} PercentMatchesAll(t: string)
    ensures Like(t, "%")
  {
    if t != "" {
      PercentMatchesAll(t[1..]);
    }
  }

  /** One escaped character in front matches exactly that character. */
  lemma EscapedCharMatches(t: string, c: char, rest: string)
    ensures Like(t, (if IsWildcard(c) then ['\\', c] else [c]) + rest) <==> t != "" && t[0] == c && Like(t[1..], rest)
  {
    if IsWildcard(c) {
      assert (['\\', c] + rest)[2..] == rest;
    } else {
      assert ([c] + rest)[1..] == rest;
    }
  }

  lemma PrefixByFirst(b: string, t: string)
    requires b != "" && t != ""
    ensures b <= t <==> b[0] == t[0] && b[1..] <= t[1..]
  {
    assert b == [b[0]] + b[1..] && t == [t[0]] + t[1..];
  }

  /** An escaped string matches itself literally, whatever characters it has. */
  lemma {:induction false} EscapedMatchesLiterally(t: string, b: string, rest: string)
    ensures Like(t, Escaped(b) + rest) <==> b <= t && Like(t[|b|..], rest)
  {
    if b == "" {
      assert Escaped(b) + rest == rest;
    } else {
      hide Like, IsWildcard;
      var head := if IsWildcard(b[0]) then ['\\', b[0]] else [b[0]];
      assert Escaped(b) + rest == head + (Escaped(b[1..]) + rest);
      EscapedCharMatches(t, b[0], Escaped(b[1..]) + rest);
      if t != "" {
        EscapedMatchesLiterally(t[1..], b[1..], rest);
        PrefixByFirst(b, t);
        assert b <= t ==> t[1..][|b| - 1..] == t[|b|..];
      }
    }
  }

  /** The pattern of a budget path accepts exactly the strings that extend the path by a
      slash, for every budget path and every string. */
  lemma PatternMatchesBelow(t: string, b: string)
    ensures Like(t, UsagePathLikePattern(b)) <==> (if b == "/" then "/" else b + "/") <= t
  {
    var prefix := if b == "/" then "" else b;
    assert Escaped("") + "/%" == "/%";
    EscapeIsOnePass(prefix);
    EscapedMatchesLiterally(t, prefix, "/%");
    if prefix <= t && |t| > |prefix| {
      PercentMatchesAll(t[|prefix|..][1..]);
      assert "/%"[1..] == "%";
    }
  }
}
