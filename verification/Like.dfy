/** The LIKE predicate of section 8.5 of ISO/IEC 9075-2 with a backslash for its escape, and the escaping that
    turns an identifier into a pattern for itself. */
module Like {

  const LIKE_ESCAPE: char := '\\'

  /** `str.replace` for a pattern of one character. */
  function Replace(s: string, c: char, replacement: string): string {
    if s == "" then "" else (if s[0] == c then replacement else [s[0]]) + Replace(s[1..], c, replacement)
  }

  function EscapeLike(value: string): string {
    Replace(Replace(Replace(value, LIKE_ESCAPE, [LIKE_ESCAPE, LIKE_ESCAPE]), '%', [LIKE_ESCAPE, '%']), '_',
        [LIKE_ESCAPE, '_'])
  }

  predicate IsSpecial(c: char) {
    c == LIKE_ESCAPE || c == '%' || c == '_'
  }

  /** The standard lets the escape stand only before a character it can escape. */
  predicate IsPattern(pattern: string) {
    pattern == "" ||
    if pattern[0] == LIKE_ESCAPE then |pattern| >= 2 && IsSpecial(pattern[1]) && IsPattern(pattern[2..])
    else IsPattern(pattern[1..])
  }

  predicate Matches(s: string, pattern: string)
    decreases |pattern|, |s|
  {
    if pattern == "" then s == ""
    else if pattern[0] == LIKE_ESCAPE then
      |pattern| >= 2 && s != "" && s[0] == pattern[1] && Matches(s[1..], pattern[2..])
    else if pattern[0] == '%' then Matches(s, pattern[1..]) || (s != "" && Matches(s[1..], pattern))
    else s != "" && (pattern[0] == '_' || s[0] == pattern[0]) && Matches(s[1..], pattern[1..])
  }

  // ---- Escaping -----------------------------------------------------------------

  function EscapeChar(c: char): string {
    if IsSpecial(c) then [LIKE_ESCAPE, c] else [c]
  }

  lemma {:induction false} ReplaceConcat(a: string, b: string, c: char, r: string)
    ensures Replace(a + b, c, r) == Replace(a, c, r) + Replace(b, c, r)
  {
    if a == "" {
      assert a + b == b;
    } else {
      ReplaceConcat(a[1..], b, c, r);
      var head := if a[0] == c then r else [a[0]];
      assert (a + b)[1..] == a[1..] + b && (a + b)[0] == a[0];
      assert Replace(a + b, c, r) == head + (Replace(a[1..], c, r) + Replace(b, c, r));
    }
  }

  lemma ReplaceOne(c: char, special: char)
    ensures Replace([c], special, [LIKE_ESCAPE, special]) == if c == special then [LIKE_ESCAPE, special] else [c]
  {
    assert [c][1..] == "";
  }

  /** Three replacements, the backslash first, escape each character exactly once. */
  lemma EscapeOne(c: char, rest: string)
    ensures EscapeLike([c] + rest) == EscapeChar(c) + EscapeLike(rest)
  {
    var e := LIKE_ESCAPE;
    ReplaceConcat([c], rest, e, [e, e]);
    var first := Replace([c], e, [e, e]);
    var r1 := Replace(rest, e, [e, e]);
    ReplaceConcat(first, r1, '%', [e, '%']);
    var second := Replace(first, '%', [e, '%']);
    var r2 := Replace(r1, '%', [e, '%']);
    ReplaceConcat(second, r2, '_', [e, '_']);
    ReplaceOne(c, e);
    ReplaceOne(c, '%');
    ReplaceOne(c, '_');
    ReplaceOne(e, '%');
    ReplaceOne(e, '_');
    ReplaceOne('%', '_');
    ReplaceConcat([e], [e], '%', [e, '%']);
    ReplaceConcat([e], [e], '_', [e, '_']);
    ReplaceConcat([e], ['%'], '_', [e, '_']);
    assert [e] + [e] == [e, e] && [e] + ['%'] == [e, '%'];
  }

  /** An escaped value in front of a pattern stands for itself and nothing else. */
  lemma {:induction false} EscapedIsLiteral(s: string, value: string, rest: string)
    ensures Matches(s, EscapeLike(value) + rest) <==> value <= s && Matches(s[|value|..], rest)
    ensures IsPattern(rest) ==> IsPattern(EscapeLike(value) + rest)
    decreases |value|
  {
    if value == "" {
      assert EscapeLike(value) + rest == rest;
    } else {
      var c, tail := value[0], value[1..];
      assert value == [c] + tail;
      EscapeOne(c, tail);
      var more := EscapeLike(tail) + rest;
      assert EscapeLike(value) + rest == EscapeChar(c) + more;
      EscapedCharIsLiteral(s, c, more);
      EscapedIsLiteral(if s == "" then s else s[1..], tail, rest);
      if s != "" {
        if |value| <= |s| { assert s[1..][|tail|..] == s[|value|..]; }
        assert value <= s <==> s[0] == c && tail <= s[1..];
      }
    }
  }

  lemma EscapedCharIsLiteral(s: string, c: char, more: string)
    ensures Matches(s, EscapeChar(c) + more) <==> s != "" && s[0] == c && Matches(s[1..], more)
    ensures IsPattern(more) ==> IsPattern(EscapeChar(c) + more)
  {
    assert (EscapeChar(c) + more)[|EscapeChar(c)|..] == more;
  }

  lemma {:induction false} AnythingMatchesPercent(s: string)
    ensures Matches(s, "%")
  {
    assert "%"[1..] == "";
    if s != "" {
      AnythingMatchesPercent(s[1..]);
    }
  }

  /** Left as they are, the two wildcards match far more than themselves. */
  lemma WildcardsMatchAnything(s: string)
    ensures Matches(s, "%")
    ensures Matches(s, "_") <==> |s| == 1
  {
    AnythingMatchesPercent(s);
    assert "_"[1..] == "" && Matches(s, "_") == (s != "" && Matches(s[1..], ""));
  }
}
