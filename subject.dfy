/**
 * NATS subject wildcard matching and the CSS selector derived from a subject
 * (util/subject.go). A pattern token `*` matches exactly one subject token and
 * a token `>` matches whatever remains, including nothing.
 */
module Subject {
  import opened Strs

  /** Reference definition of token-wise matching over already split tokens. */
  function TokensMatch(p: seq<string>, s: seq<string>): bool
    decreases |p|
  {
    if |p| == 0 then |s| == 0
    else if p[0] == ">" then true
    else if |s| == 0 then false
    else (p[0] == "*" || p[0] == s[0]) && TokensMatch(p[1..], s[1..])
  }

  /** The relation `SubjectMatches` decides: equal strings, or token-wise matching on `.`. */
  predicate Matches(pattern: string, subj: string) {
    pattern == subj || TokensMatch(Split(pattern, '.'), Split(subj, '.'))
  }

  /** The token scan with early returns; it decides `Matches`. */
  method SubjectMatches(pattern: string, subj: string) returns (b: bool)
    ensures b == Matches(pattern, subj)
  {
    if pattern == subj {
      return true;
    }
    var pTok := Split(pattern, '.');
    var sTok := Split(subj, '.');
    var i := 0;
    while i < |pTok|
      invariant 0 <= i <= |pTok| && i <= |sTok|
      invariant TokensMatch(pTok, sTok) == TokensMatch(pTok[i..], sTok[i..])
    {
      var pt := pTok[i];
      if pt == ">" {
        return true;
      }
      if pt == "*" {
        if i >= |sTok| {
          return false;
        }
        assert pTok[i..][1..] == pTok[i + 1..] && sTok[i..][1..] == sTok[i + 1..];
        i := i + 1;
        continue;
      }
      if i >= |sTok| {
        return false;
      }
      if pt != sTok[i] {
        return false;
      }
      assert pTok[i..][1..] == pTok[i + 1..] && sTok[i..][1..] == sTok[i + 1..];
      i := i + 1;
    }
    return |sTok| == |pTok|;
  }

  // ---------------------------------------------------------------- properties of matching

  /** Every token list matches itself, so the `pattern == subj` shortcut only saves work. */
  lemma {:induction false} TokensReflexive(t: seq<string>)
    ensures TokensMatch(t, t)
  {
    if |t| > 0 && t[0] != ">" {
      TokensReflexive(t[1..]);
    }
  }

  lemma MatchesReflexive(p: string)
    ensures Matches(p, p)
    ensures TokensMatch(Split(p, '.'), Split(p, '.'))
  {
    TokensReflexive(Split(p, '.'));
  }

  /** A token list without wildcard tokens matches exactly itself. */
  lemma {:induction false} LiteralTokens(p: seq<string>, s: seq<string>)
    requires forall i :: 0 <= i < |p| ==> p[i] != "*" && p[i] != ">"
    ensures TokensMatch(p, s) <==> p == s
  {
    if |p| > 0 && |s| > 0 {
      LiteralTokens(p[1..], s[1..]);
      assert p == [p[0]] + p[1..] && s == [s[0]] + s[1..];
    } else if |p| > 0 {
      assert p[0] != ">";
    }
  }

  /** A pattern with no `*` or `>` token matches a subject iff the two are equal. */
  lemma LiteralPatternIff(pattern: string, subj: string)
    requires forall i :: 0 <= i < |Split(pattern, '.')| ==> Split(pattern, '.')[i] != "*" && Split(pattern, '.')[i] != ">"
    ensures Matches(pattern, subj) <==> pattern == subj
  {
    var pt, st := Split(pattern, '.'), Split(subj, '.');
    LiteralTokens(pt, st);
    if pt == st {
      SplitJoin(pattern, '.');
      SplitJoin(subj, '.');
    }
  }

  /** Equal-length token lists match when each pattern token is `*` or equals the subject's token. */
  lemma {:induction false} PointwiseMatch(p: seq<string>, s: seq<string>)
    requires |p| == |s|
    requires forall i :: 0 <= i < |p| ==> p[i] == "*" || p[i] == s[i]
    ensures TokensMatch(p, s)
  {
    if |p| > 0 {
      PointwiseMatch(p[1..], s[1..]);
    }
  }

  /** The converse: without `>`, a match is position by position. */
  lemma {:induction false} MatchPointwise(p: seq<string>, s: seq<string>)
    requires forall i :: 0 <= i < |p| ==> p[i] != ">"
    requires TokensMatch(p, s)
    ensures |p| == |s|
    ensures forall i :: 0 <= i < |p| ==> p[i] == "*" || p[i] == s[i]
  {
    if |p| > 0 {
      MatchPointwise(p[1..], s[1..]);
      assert forall i :: 1 <= i < |p| ==> p[i] == p[1..][i - 1] && s[i] == s[1..][i - 1];
    }
  }

  /** Without a `>` token, matching token lists have the same length. */
  lemma {:induction false} NoGreaterSameLength(p: seq<string>, s: seq<string>)
    requires forall i :: 0 <= i < |p| ==> p[i] != ">"
    requires TokensMatch(p, s)
    ensures |p| == |s|
  {
    if |p| > 0 {
      NoGreaterSameLength(p[1..], s[1..]);
    }
  }

  lemma MatchSameTokenCount(pattern: string, subj: string)
    requires forall i :: 0 <= i < |Split(pattern, '.')| ==> Split(pattern, '.')[i] != ">"
    requires Matches(pattern, subj)
    ensures |Split(pattern, '.')| == |Split(subj, '.')|
  {
    if pattern != subj {
      NoGreaterSameLength(Split(pattern, '.'), Split(subj, '.'));
    }
  }

  /** A string splits into exactly one piece iff it has no separator. */
  lemma SplitSingle(s: string, c: char)
    ensures |Split(s, c)| == 1 <==> c !in s
  {
    var k := IndexOfAny(s, {c});
    if c !in s {
      NoSepIndex(s, c);
    } else {
      assert k < |s|;
    }
  }

  /** `*` matches one token of any content (the empty token included) and never two. */
  lemma StarMatchesOneToken(subj: string)
    ensures Matches("*", subj) <==> '.' !in subj
  {
    NoSepIndex("*", '.');
    assert Split("*", '.') == ["*"];
    SplitSingle(subj, '.');
    var st := Split(subj, '.');
    if |st| > 0 {
      assert TokensMatch(["*"], st) == TokensMatch([], st[1..]);
    }
  }

  /** `*` fails when the subject has no token left at its position. */
  lemma StarNeedsToken(rest: seq<string>)
    ensures !TokensMatch(["*"] + rest, [])
  {
  }

  /** `>` matches every subject. */
  lemma GreaterMatchesAll(subj: string)
    ensures Matches(">", subj)
  {
    NoSepIndex(">", '.');
    assert Split(">", '.') == [">"];
  }

  /** Splitting `x.y` gives the pieces of `x` followed by the pieces of `y`. */
  lemma {:induction false} SplitAppend(x: string, y: string, c: char)
    ensures Split(x + [c] + y, c) == Split(x, c) + Split(y, c)
    decreases |x|
  {
    var s := x + [c] + y;
    var k := IndexOfAny(x, {c});
    if k == |x| {
      PrefixIndex(x, [c] + y, c);
      assert s == x + ([c] + y);
      assert s[..|x|] == x && s[|x| + 1..] == y;
    } else {
      assert s[..k] == x[..k];
      assert IndexOfAny(s, {c}) == k by {
        IndexPrefix(x, [c] + y, {c});
        assert s == x + ([c] + y);
      }
      assert s[k + 1..] == x[k + 1..] + [c] + y;
      SplitAppend(x[k + 1..], y, c);
    }
  }

  lemma {:induction false} IndexPrefix(x: string, y: string, seps: set<char>)
    requires IndexOfAny(x, seps) < |x|
    ensures IndexOfAny(x + y, seps) == IndexOfAny(x, seps)
  {
    if x[0] !in seps {
      assert (x + y)[1..] == x[1..] + y;
      IndexPrefix(x[1..], y, seps);
    }
  }

  /** A pattern's tokens followed by `>` match the same tokens followed by anything. */
  lemma {:induction false} TokensPrefixGreater(q: seq<string>, rest: seq<string>)
    ensures TokensMatch(q + [">"], q + rest)
  {
    if |q| > 0 && q[0] != ">" {
      assert (q + [">"])[1..] == q[1..] + [">"];
      assert (q + rest)[1..] == q[1..] + rest;
      TokensPrefixGreater(q[1..], rest);
    }
  }

  /** `q.>` matches `q` itself and every subject `q.rest`: the remainder may be empty. */
  lemma GreaterMatchesRemainder(q: string, rest: string)
    ensures Matches(q + ".>", q)
    ensures Matches(q + ".>", q + "." + rest)
  {
    NoSepIndex(">", '.');
    assert Split(">", '.') == [">"];
    SplitAppend(q, ">", '.');
    assert q + ".>" == q + ['.'] + ">";
    TokensPrefixGreater(Split(q, '.'), []);
    assert Split(q, '.') + [] == Split(q, '.');
    SplitAppend(q, rest, '.');
    assert q + "." + rest == q + ['.'] + rest;
    TokensPrefixGreater(Split(q, '.'), Split(rest, '.'));
  }

  lemma ParentMatchesGreater()
    ensures Matches("a.>", "a")
  {
    GreaterMatchesRemainder("a", "");
    assert "a" + ".>" == "a.>";
  }

  // ---------------------------------------------------------------- selectors

  /** The single-character rewrites of the `NewReplacer` in `SelectorFor`. */
  function SelectorChar(c: char): string {
    if c == '.' then "-" else if c == '*' then "wild" else if c == '>' then "fullwild" else [c]
  }

  lemma SelectorCharFree(c: char)
    ensures c != '.' && c != '*' && c != '>' ==> SelectorChar(c) == [c]
    ensures '.' !in SelectorChar(c) && '*' !in SelectorChar(c) && '>' !in SelectorChar(c)
  {
    var h := SelectorChar(c);
    if c == '*' {
      assert h == ['w', 'i', 'l', 'd'];
    } else if c == '>' {
      assert h == ['f', 'u', 'l', 'l', 'w', 'i', 'l', 'd'];
    }
  }

  function ReplaceSubject(s: string): (r: string)
    ensures '.' !in r && '*' !in r && '>' !in r
    ensures |r| >= |s|
  {
    if |s| == 0 then []
    else
      var h, t := SelectorChar(s[0]), ReplaceSubject(s[1..]);
      SelectorCharFree(s[0]);
      assert forall x :: x in h + t <==> x in h || x in t;
      h + t
  }

  /** CSS selector of the element that shows a subject. */
  function SelectorFor(subj: string): (r: string)
    ensures |r| >= 5 && r[..5] == "#sub-"
    ensures '.' !in r && '*' !in r && '>' !in r
  {
    "#sub-" + ReplaceSubject(subj)
  }

  /** Two different subjects share a selector. */
  lemma SelectorNotInjective()
    ensures SelectorFor("a.b") == SelectorFor("a-b")
    ensures "a.b" != "a-b"
  {
    assert ReplaceSubject("a.b") == "a" + ReplaceSubject(".b");
    assert ReplaceSubject(".b") == "-" + ReplaceSubject("b");
    assert ReplaceSubject("a-b") == "a" + ReplaceSubject("-b");
    assert ReplaceSubject("-b") == "-" + ReplaceSubject("b");
  }

  /** A subject without `.`, `*` or `>` keeps its text after the `#sub-` prefix. */
  lemma {:induction false} SelectorPlain(s: string)
    requires '.' !in s && '*' !in s && '>' !in s
    ensures ReplaceSubject(s) == s
  {
    if |s| > 0 {
      SelectorPlain(s[1..]);
      assert s == [s[0]] + s[1..];
    }
  }

  lemma {:induction false} ReplaceCharAppend(a: string, b: string, c: char, rep: string)
    ensures ReplaceChar(a + b, c, rep) == ReplaceChar(a, c, rep) + ReplaceChar(b, c, rep)
  {
    if |a| > 0 {
      assert (a + b)[1..] == a[1..] + b;
      ReplaceCharAppend(a[1..], b, c, rep);
    } else {
      assert a + b == b;
    }
  }

  /**
   * The one-pass replacer equals three successive `ReplaceAll` calls, '.' first,
   * because no replacement text contains a later pattern character.
   */
  lemma {:induction false} SelectorIsSequentialReplace(s: string)
    ensures ReplaceSubject(s) ==
      ReplaceAll(ReplaceAll(ReplaceAll(s, ".", "-"), "*", "wild"), ">", "fullwild")
  {
    var a := ReplaceChar(s, '.', "-");
    var b := ReplaceChar(a, '*', "wild");
    var c := ReplaceChar(b, '>', "fullwild");
    assert ReplaceAll(s, ".", "-") == a;
    assert ReplaceAll(a, "*", "wild") == b;
    assert ReplaceAll(b, ">", "fullwild") == c;
    SequentialChars(s);
  }

  lemma {:induction false} SequentialChars(s: string)
    ensures ReplaceSubject(s) ==
      ReplaceChar(ReplaceChar(ReplaceChar(s, '.', "-"), '*', "wild"), '>', "fullwild")
  {
    if |s| > 0 {
      var x, t := s[0], s[1..];
      var a0 := if x == '.' then "-" else [x];
      var b0 := ReplaceChar(a0, '*', "wild");
      var c0 := ReplaceChar(b0, '>', "fullwild");
      var at := ReplaceChar(t, '.', "-");
      ReplaceCharAppend(a0, at, '*', "wild");
      ReplaceCharAppend(b0, ReplaceChar(at, '*', "wild"), '>', "fullwild");
      SequentialChars(t);
      SelectorCharSteps(x);
    }
  }

  /** One character through the three passes comes out as `SelectorChar` makes it. */
  lemma SelectorCharSteps(x: char)
    ensures ReplaceChar(ReplaceChar(if x == '.' then "-" else [x], '*', "wild"), '>', "fullwild") == SelectorChar(x)
  {
    if x == '.' {
      assert ReplaceChar("-", '*', "wild") == "-";
      assert ReplaceChar("-", '>', "fullwild") == "-";
    } else if x == '*' {
      WildSteps();
    } else {
      assert ReplaceChar([x], '*', "wild") == [x];
    }
  }

  lemma WildSteps()
    ensures ReplaceChar(['*'], '*', "wild") == "wild"
    ensures ReplaceChar("wild", '>', "fullwild") == "wild"
  {
    assert ReplaceChar(['*'], '*', "wild") == "wild" + ReplaceChar([], '*', "wild");
    assert "wild"[1..] == "ild" && "ild"[1..] == "ld" && "ld"[1..] == "d" && "d"[1..] == "";
  }
}
