/** Reading the currency code the source catalog spells in its own way. */
module Currencies {
  import opened Outcome
  import opened Money

  predicate IsSpace(c: char) {
    c == ' ' || '\t' <= c <= '\r' || '\U{1c}' <= c <= '\U{1f}'
  }

  function TrimStart(s: string): string {
    if s != "" && IsSpace(s[0]) then TrimStart(s[1..]) else s
  }

  function TrimEnd(s: string): string {
    if s != "" && IsSpace(s[|s| - 1]) then TrimEnd(s[..|s| - 1]) else s
  }

  function Lower(s: string): string {
    if s == "" then ""
    else [if 'A' <= s[0] <= 'Z' then (s[0] as int + 32) as char else s[0]] + Lower(s[1..])
  }

  function Strip(s: string): string {
    TrimEnd(TrimStart(s))
  }

  lemma {:induction false} TrimStartResult(s: string)
    ensures TrimStart(s) == "" || !IsSpace(TrimStart(s)[0])
  {
    if s != "" && IsSpace(s[0]) {
      TrimStartResult(s[1..]);
    }
  }

  lemma {:induction false} TrimEndResult(s: string)
    ensures TrimEnd(s) <= s
    ensures TrimEnd(s) == "" || !IsSpace(TrimEnd(s)[|TrimEnd(s)| - 1])
  {
    if s != "" && IsSpace(s[|s| - 1]) {
      TrimEndResult(s[..|s| - 1]);
    }
  }

  /** A stripped code is left as it is by stripping it again. */
  lemma StripTwice(s: string)
    ensures Strip(Strip(s)) == Strip(s)
    ensures ParseCurrency(Strip(s)) == ParseCurrency(s)
  {
    TrimStartResult(s);
    TrimEndResult(TrimStart(s));
  }

  /** The member a stripped, lower-cased code names, if there is one. */
  function ParseCurrency(code: string): Option<Currency> {
    var name := Lower(Strip(code));
    if name == "rub" then Some(Rub) else if name == "usd" then Some(Usd) else if name == "eur" then Some(Eur) else None
  }

  predicate AllSpaces(s: string) {
    forall i :: 0 <= i < |s| ==> IsSpace(s[i])
  }

  lemma {:induction false} TrimStartTakesSpaces(s: string)
    ensures exists left :: AllSpaces(left) && s == left + TrimStart(s)
  {
    if s != "" && IsSpace(s[0]) {
      TrimStartTakesSpaces(s[1..]);
      var left :| AllSpaces(left) && s[1..] == left + TrimStart(s[1..]);
      assert s == [s[0]] + left + TrimStart(s) && AllSpaces([s[0]] + left);
    } else {
      assert s == "" + TrimStart(s) && AllSpaces("");
    }
  }

  lemma {:induction false} TrimEndTakesSpaces(s: string)
    ensures exists right :: AllSpaces(right) && s == TrimEnd(s) + right
  {
    if s != "" && IsSpace(s[|s| - 1]) {
      TrimEndTakesSpaces(s[..|s| - 1]);
      var right :| AllSpaces(right) && s[..|s| - 1] == TrimEnd(s[..|s| - 1]) + right;
      assert s == TrimEnd(s) + (right + [s[|s| - 1]]) && AllSpaces(right + [s[|s| - 1]]);
    } else {
      assert s == TrimEnd(s) + "" && AllSpaces("");
    }
  }

  lemma {:induction false} TrimStartOf(left: string, s: string)
    requires AllSpaces(left) && (s == "" || !IsSpace(s[0]))
    ensures TrimStart(left + s) == s
    decreases |left|
  {
    if left == "" {
      assert left + s == s;
    } else {
      assert (left + s)[0] == left[0] && (left + s)[1..] == left[1..] + s;
      TrimStartOf(left[1..], s);
    }
  }

  lemma {:induction false} TrimEndOf(s: string, right: string)
    requires AllSpaces(right) && (s == "" || !IsSpace(s[|s| - 1]))
    ensures TrimEnd(s + right) == s
    decreases |right|
  {
    if right == "" {
      assert s + right == s;
    } else {
      var last := |right| - 1;
      assert (s + right)[|s| + last] == right[last] && (s + right)[..|s| + last] == s + right[..last];
      TrimEndOf(s, right[..last]);
    }
  }

  /** The text without the spaces around it. */
  lemma StripTakesTheSpacesAround(left: string, s: string, right: string)
    requires AllSpaces(left) && AllSpaces(right)
    requires s != "" && !IsSpace(s[0]) && !IsSpace(s[|s| - 1])
    ensures Strip(left + s + right) == s
  {
    assert left + s + right == left + (s + right) && (s + right)[0] == s[0];
    TrimStartOf(left, s + right);
    TrimEndOf(s, right);
  }

  function Name(currency: Currency): string {
    match currency case Rub => "rub" case Usd => "usd" case Eur => "eur"
  }

  /** The three letters of a currency, each in either case. */
  ghost predicate Spells(code: string, currency: Currency) {
    && |code| == 3
    && forall i :: 0 <= i < 3 ==>
                     code[i] == Name(currency)[i] || code[i] as int + 32 == Name(currency)[i] as int
  }

  lemma {:induction false} LowerAt(s: string)
    ensures |Lower(s)| == |s|
    ensures forall i :: 0 <= i < |s| ==> Lower(s)[i] == if 'A' <= s[i] <= 'Z' then (s[i] as int + 32) as char else s[i]
  {
    if s != "" { LowerAt(s[1..]); }
  }

  lemma SpelledIsLower(code: string, currency: Currency)
    ensures Spells(code, currency) <==> Lower(code) == Name(currency)
  {
    LowerAt(code);
    hide Lower;
  }

  lemma NamesDiffer(a: Currency, b: Currency)
    ensures Name(a) == Name(b) ==> a == b
  {
    assert Name(a)[0] == Name(b)[0] ==> a == b;
  }

  lemma ReadByName(code: string, currency: Currency)
    ensures ParseCurrency(code) == Some(currency) <==> Spells(Strip(code), currency)
  {
    SpelledIsLower(Strip(code), currency);
    NamesDiffer(Rub, currency);
    NamesDiffer(Usd, currency);
    NamesDiffer(Eur, currency);
    hide Lower, Strip, Spells;
  }

  lemma SpacesAround(code: string) returns (left: string, right: string)
    ensures AllSpaces(left) && AllSpaces(right) && code == left + Strip(code) + right
  {
    TrimStartTakesSpaces(code);
    TrimEndTakesSpaces(TrimStart(code));
    left :| AllSpaces(left) && code == left + TrimStart(code);
    right :| AllSpaces(right) && TrimStart(code) == Strip(code) + right;
  }

  lemma SpelledHasNoSpaces(code: string, currency: Currency)
    requires Spells(code, currency)
    ensures code != "" && !IsSpace(code[0]) && !IsSpace(code[|code| - 1])
  {
  }

  /** A code is read as a currency exactly when it is its three letters, in any case, with spaces around. */
  lemma WhatIsRead(code: string, currency: Currency)
    ensures ParseCurrency(code) == Some(currency) <==>
            exists left, letters, right ::
              AllSpaces(left) && AllSpaces(right) && Spells(letters, currency) && code == left + letters + right
  {
    hide ParseCurrency, Strip, Spells, AllSpaces, IsSpace;
    ReadByName(code, currency);
    var before, after := SpacesAround(code);
    forall left, letters, right
      | AllSpaces(left) && AllSpaces(right) && Spells(letters, currency) && code == left + letters + right
      ensures Strip(code) == letters
    {
      SpelledHasNoSpaces(letters, currency);
      StripTakesTheSpacesAround(left, letters, right);
    }
  }
}
