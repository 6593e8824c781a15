/** The search pattern of the list queries: percent signs and underscores of the search text are
  * escaped and the result is matched with ILIKE, as section 9.7.1 of the PostgreSQL 16
  * documentation describes it. Case folding is a parameter, one character at a time. */
module LikePattern {

  const ESCAPE: char := '\\'

  // ----- the pattern that is sent ---------------------------------------------------

  /** Every `c` becomes an escaped `c`. */
  function Replace(s: string, c: char): string {
    if s == "" then "" else (if s[0] == c then [ESCAPE, c] else [s[0]]) + Replace(s[1..], c)
  }

  function Sanitize(search: string): string {
    Replace(Replace(search, '%'), '_')
  }

  function Pattern(search: string): string {
    "%" + Sanitize(search) + "%"
  }

  // ----- what the database makes of a pattern ---------------------------------------

  /** A pattern that ends in a lone escape character matches nothing (the database reports an
    * error); no pattern built here does. */
  predicate Like(text: string, pattern: string)
    decreases |pattern|, |text|
  {
    if pattern == "" then text == ""
    else if pattern[0] == '%' then Like(text, pattern[1..]) || (text != "" && Like(text[1..], pattern))
    else if text == "" then false
    else if pattern[0] == '_' then Like(text[1..], pattern[1..])
    else if pattern[0] == ESCAPE then |pattern| > 1 && text[0] == pattern[1] && Like(text[1..], pattern[2..])
    else text[0] == pattern[0] && Like(text[1..], pattern[1..])
  }

  function Fold(fold: char -> char, s: string): (r: string)
    ensures |r| == |s| && forall i :: 0 <= i < |s| ==> r[i] == fold(s[i])
  {
    seq(|s|, i requires 0 <= i < |s| => fold(s[i]))
  }

  predicate ILike(fold: char -> char, text: string, pattern: string) {
    Like(Fold(fold, text), Fold(fold, pattern))
  }

  /** Folding leaves the three special characters alone and turns nothing else into them. */
  ghost predicate KeepsSpecials(fold: char -> char) {
    forall c: char {:trigger fold(c)} ::
      (fold(c) == '%' <==> c == '%') && (fold(c) == '_' <==> c == '_') && (fold(c) == ESCAPE <==> c == ESCAPE)
  }

  ghost predicate Contains(text: string, part: string) {
    exists i: nat :: i <= |text| && part <= text[i..]
  }

  // ----- escaping one character at a time -------------------------------------------

  function Escaped(c: char): string {
    if c == '%' || c == '_' then [ESCAPE, c] else [c]
  }

  lemma {:induction false} ReplaceConcat(a: string, b: string, c: char)
    ensures Replace(a + b, c) == Replace(a, c) + Replace(b, c)
    decreases |a|
  {
    var whole := a + b;
    if a == "" {
      assert whole == b && Replace(a, c) + Replace(b, c) == Replace(b, c);
    } else {
      ReplaceConcat(a[1..], b, c);
      assert whole[0] == a[0] && whole[1..] == a[1..] + b;
      Associate(if a[0] == c then [ESCAPE, c] else [a[0]], Replace(a[1..], c), Replace(b, c));
    }
  }

  lemma Associate(a: string, b: string, c: string)
    ensures a + (b + c) == a + b + c
  {
  }

  /** The two passes do not disturb each other. */
  lemma SanitizeCons(s: string)
    requires s != ""
    ensures Sanitize(s) == Escaped(s[0]) + Sanitize(s[1..])
  {
    var first: string := if s[0] == '%' then [ESCAPE, '%'] else [s[0]];
    ReplaceConcat(first, Replace(s[1..], '%'), '_');
    assert first[1..] == if s[0] == '%' then ['%'] else "";
    assert Replace(first[1..], '_') == first[1..];
    assert Replace(first, '_') == Escaped(s[0]);
  }

  lemma {:induction false} FoldSanitize(fold: char -> char, s: string)
    requires KeepsSpecials(fold)
    ensures Fold(fold, Sanitize(s)) == Sanitize(Fold(fold, s))
    decreases |s|
  {
    if s != "" {
      SanitizeCons(s);
      SanitizeCons(Fold(fold, s));
      FoldSanitize(fold, s[1..]);
      assert Fold(fold, s)[1..] == Fold(fold, s[1..]);
      assert Fold(fold, Escaped(s[0])) == Escaped(fold(s[0]));
      FoldConcat(fold, Escaped(s[0]), Sanitize(s[1..]));
    }
  }

  lemma FoldConcat(fold: char -> char, a: string, b: string)
    ensures Fold(fold, a + b) == Fold(fold, a) + Fold(fold, b)
  {
  }

  lemma FoldPattern(fold: char -> char, s: string)
    requires KeepsSpecials(fold)
    ensures Fold(fold, Pattern(s)) == Pattern(Fold(fold, s))
  {
    FoldSanitize(fold, s);
    FoldConcat(fold, "%" + Sanitize(s), "%");
    FoldConcat(fold, "%", Sanitize(s));
    assert Fold(fold, "%") == "%";
  }

  // ----- a search text without the escape character is taken literally ---------------

  lemma {:induction false} AnythingGoes(text: string)
    ensures Like(text, "%")
    decreases |text|
  {
    if text == "" {
      assert Like(text, "");
    } else {
      AnythingGoes(text[1..]);
    }
  }

  lemma {:induction false} LiteralPrefix(text: string, s: string)
    requires ESCAPE !in s
    ensures Like(text, Sanitize(s) + "%") <==> s <= text
    decreases |s|
  {
    if s == "" {
      AnythingGoes(text);
      assert Sanitize(s) + "%" == "%";
    } else {
      SanitizeCons(s);
      var rest := Sanitize(s[1..]) + "%";
      var pattern := Sanitize(s) + "%";
      assert pattern == Escaped(s[0]) + rest;
      assert pattern[|Escaped(s[0])|..] == rest;
      if text != "" {
        LiteralPrefix(text[1..], s[1..]);
        assert Like(text, pattern) <==> text[0] == s[0] && Like(text[1..], rest);
        assert s <= text <==> s[0] == text[0] && s[1..] <= text[1..] by {
          assert s == [s[0]] + s[1..] && text == [text[0]] + text[1..];
        }
      }
    }
  }

  lemma {:induction false} LeadingPercent(text: string, pattern: string)
    ensures Like(text, "%" + pattern) <==> exists i: nat :: i <= |text| && Like(text[i..], pattern)
    decreases |text|
  {
    var whole := "%" + pattern;
    assert whole[1..] == pattern && text[0..] == text;
    if text != "" {
      LeadingPercent(text[1..], pattern);
      if Like(text[1..], whole) {
        var i: nat :| i <= |text[1..]| && Like(text[1..][i..], pattern);
        assert text[1..][i..] == text[i + 1..];
      }
      if exists i: nat :: i <= |text| && Like(text[i..], pattern) {
        var i: nat :| i <= |text| && Like(text[i..], pattern);
        if i > 0 {
          assert text[1..][i - 1..] == text[i..];
        }
      }
    }
  }

  lemma PlainPatternIsContainment(text: string, s: string)
    requires ESCAPE !in s
    ensures Like(text, Pattern(s)) <==> Contains(text, s)
  {
    assert Pattern(s) == "%" + (Sanitize(s) + "%");
    LeadingPercent(text, Sanitize(s) + "%");
    forall i: nat | i <= |text|
      ensures Like(text[i..], Sanitize(s) + "%") <==> s <= text[i..]
    {
      LiteralPrefix(text[i..], s);
    }
  }

  /** For a search text without a backslash the query finds exactly the names that contain it,
    * case folded, whatever percent signs and underscores it has. */
  lemma SearchIsLiteral(fold: char -> char, name: string, search: string)
    requires KeepsSpecials(fold) && ESCAPE !in search
    ensures ILike(fold, name, Pattern(search)) <==> Contains(Fold(fold, name), Fold(fold, search))
  {
    FoldPattern(fold, search);
    PlainPatternIsContainment(Fold(fold, name), Fold(fold, search));
  }

  // ----- a search text with the escape character never is ---------------------------

  /** A shortest text that the escaped search text and a percent sign match: an escaped character
    * stands for itself, `any` stands for a wildcard underscore. */
  function Decoded(s: string, any: char): string
    decreases |s|
  {
    if s == "" then ""
    else if s[0] != ESCAPE then [s[0]] + Decoded(s[1..], any)
    else if |s| == 1 then "%"
    else if s[1] == '%' then [ESCAPE] + Decoded(s[2..], any)
    else if s[1] == '_' then [ESCAPE, any] + Decoded(s[2..], any)
    else [s[1]] + Decoded(s[2..], any)
  }

  lemma {:induction false} DecodedIsOther(s: string, any: char)
    requires any != '_'
    ensures |Decoded(s, any)| <= |s|
    ensures ESCAPE in s ==> Decoded(s, any) != s
    decreases |s|
  {
    if s != "" {
      var d := Decoded(s, any);
      if s[0] != ESCAPE {
        DecodedIsOther(s[1..], any);
        assert d[1..] == Decoded(s[1..], any);
      } else if |s| > 1 {
        DecodedIsOther(s[2..], any);
        if s[1] == '_' {
          assert d[1] == any;
        }
      }
    }
  }

  lemma {:induction false} DecodedMatches(s: string, any: char)
    ensures Like(Decoded(s, any), Sanitize(s) + "%")
    decreases |s|
  {
    if s == "" {
      AnythingGoes("");
      assert Sanitize(s) + "%" == "%";
    } else if s[0] != ESCAPE {
      DecodedMatches(s[1..], any);
      PlainCharMatches(s, any);
    } else if |s| == 1 {
      LastEscapeMatches(s, any);
    } else {
      DecodedMatches(s[2..], any);
      SanitizePair(s);
      EscapedPairMatches(s, any, Sanitize(s[2..]) + "%");
    }
  }

  lemma PlainCharMatches(s: string, any: char)
    requires s != "" && s[0] != ESCAPE && Like(Decoded(s[1..], any), Sanitize(s[1..]) + "%")
    ensures Like(Decoded(s, any), Sanitize(s) + "%")
  {
    SanitizeCons(s);
    var pattern, rest := Sanitize(s) + "%", Sanitize(s[1..]) + "%";
    assert pattern == Escaped(s[0]) + rest;
    assert pattern[|Escaped(s[0])|..] == rest && Decoded(s, any)[1..] == Decoded(s[1..], any);
  }

  lemma LastEscapeMatches(s: string, any: char)
    requires |s| == 1 && s[0] == ESCAPE
    ensures Like(Decoded(s, any), Sanitize(s) + "%")
  {
    SanitizeCons(s);
    var pattern := Sanitize(s) + "%";
    assert Sanitize(s[1..]) == "" && pattern == [ESCAPE, '%'] && pattern[2..] == "" && Decoded(s, any)[1..] == "";
  }

  lemma SanitizePair(s: string)
    requires |s| > 1 && s[0] == ESCAPE
    ensures Sanitize(s) + "%" == [ESCAPE] + Escaped(s[1]) + (Sanitize(s[2..]) + "%")
  {
    SanitizeCons(s);
    SanitizeCons(s[1..]);
    assert s[1..][1..] == s[2..];
    Reassociate([ESCAPE], Escaped(s[1]), Sanitize(s[2..]), "%");
  }

  lemma Reassociate(a: string, b: string, c: string, d: string)
    ensures a + (b + c) + d == a + b + (c + d)
  {
  }

  lemma EscapedPairMatches(s: string, any: char, rest: string)
    requires |s| > 1 && s[0] == ESCAPE && Like(Decoded(s[2..], any), rest)
    ensures Like(Decoded(s, any), [ESCAPE] + Escaped(s[1]) + rest)
  {
    var d, pattern := Decoded(s, any), [ESCAPE] + Escaped(s[1]) + rest;
    if s[1] == '%' {
      assert pattern[2..] == ['%'] + rest && pattern[2..][1..] == rest && d[1..] == Decoded(s[2..], any);
    } else if s[1] == '_' {
      assert pattern[2..] == ['_'] + rest && pattern[2..][1..] == rest && d[1..][1..] == Decoded(s[2..], any);
    } else {
      assert pattern[2..] == rest && d[1..] == Decoded(s[2..], any);
    }
  }

  lemma {:induction false} FoldDecoded(fold: char -> char, s: string, any: char)
    requires KeepsSpecials(fold)
    ensures Fold(fold, Decoded(s, any)) == Decoded(Fold(fold, s), fold(any))
    decreases |s|
  {
    if s != "" && s[0] != ESCAPE {
      FoldDecoded(fold, s[1..], any);
      FoldPlainChar(fold, s, any);
    } else if |s| > 1 {
      FoldDecoded(fold, s[2..], any);
      FoldEscapedPair(fold, s, any);
    }
  }

  lemma FoldPlainChar(fold: char -> char, s: string, any: char)
    requires KeepsSpecials(fold) && s != "" && s[0] != ESCAPE
    requires Fold(fold, Decoded(s[1..], any)) == Decoded(Fold(fold, s[1..]), fold(any))
    ensures Fold(fold, Decoded(s, any)) == Decoded(Fold(fold, s), fold(any))
  {
    var f := Fold(fold, s);
    assert f[1..] == Fold(fold, s[1..]) && f[0] != ESCAPE;
    FoldConcat(fold, [s[0]], Decoded(s[1..], any));
    assert Fold(fold, [s[0]]) == [f[0]];
  }

  lemma FoldEscapedPair(fold: char -> char, s: string, any: char)
    requires KeepsSpecials(fold) && |s| > 1 && s[0] == ESCAPE
    requires Fold(fold, Decoded(s[2..], any)) == Decoded(Fold(fold, s[2..]), fold(any))
    ensures Fold(fold, Decoded(s, any)) == Decoded(Fold(fold, s), fold(any))
  {
    var f := Fold(fold, s);
    assert f[2..] == Fold(fold, s[2..]) && f[0] == ESCAPE && f[1] == fold(s[1]);
    var head := if s[1] == '%' then [ESCAPE] else if s[1] == '_' then [ESCAPE, any] else [s[1]];
    FoldConcat(fold, head, Decoded(s[2..], any));
    assert Fold(fold, head) == if f[1] == '%' then [ESCAPE] else if f[1] == '_' then [ESCAPE, fold(any)] else [f[1]];
  }

  /** A search text with a backslash is never taken literally: the query also finds a name that
    * does not contain it. */
  lemma BackslashBreaksSearch(fold: char -> char, search: string) returns (name: string)
    requires KeepsSpecials(fold) && ESCAPE in search
    ensures ILike(fold, name, Pattern(search)) && !Contains(Fold(fold, name), Fold(fold, search))
  {
    name := Decoded(search, 'a');
    var f := Fold(fold, search);
    FoldPattern(fold, search);
    FoldDecoded(fold, search, 'a');
    DecodedMatches(f, fold('a'));
    assert Pattern(f) == "%" + (Sanitize(f) + "%");
    LeadingPercent(Fold(fold, name), Sanitize(f) + "%");
    assert Fold(fold, name)[0..] == Fold(fold, name);
    var k :| 0 <= k < |search| && search[k] == ESCAPE;
    assert f[k] == ESCAPE;
    DecodedIsOther(f, fold('a'));
  }

  /** So escaping makes a search literal for every name exactly if it has no backslash. */
  lemma SearchIsLiteralIff(fold: char -> char, search: string)
    requires KeepsSpecials(fold)
    ensures (forall name: string :: ILike(fold, name, Pattern(search)) <==> Contains(Fold(fold, name), Fold(fold, search)))
            <==> ESCAPE !in search
  {
    if ESCAPE in search {
      var name := BackslashBreaksSearch(fold, search);
    } else {
      forall name: string
        ensures ILike(fold, name, Pattern(search)) <==> Contains(Fold(fold, name), Fold(fold, search))
      {
        SearchIsLiteral(fold, name, search);
      }
    }
  }
}
