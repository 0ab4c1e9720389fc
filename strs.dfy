/**
 * String primitives shared by the Python scripts and the Go platform:
 * splitting and joining, trimming, ASCII case mapping, substring search,
 * replacement, decimal printing and the byte-wise (code point) order that
 * Python's `sorted` and Go's `sort.Strings` use.
 */
module Strs {

  // ---------------------------------------------------------------- whitespace

  /** The characters Go's `unicode.IsSpace` accepts. */
  const GoSpace: set<char> := {
    ' ', '\t', '\n', '\r', '\U{0B}', '\U{0C}', '\U{85}', '\U{A0}', '\U{1680}',
    '\U{2000}', '\U{2001}', '\U{2002}', '\U{2003}', '\U{2004}', '\U{2005}', '\U{2006}',
    '\U{2007}', '\U{2008}', '\U{2009}', '\U{200A}', '\U{2028}', '\U{2029}', '\U{202F}',
    '\U{205F}', '\U{3000}'
  }

  /** The characters Python's `str.isspace` accepts: Go's set plus the four separators U+001C..U+001F. */
  const PySpace: set<char> := GoSpace + {'\U{1C}', '\U{1D}', '\U{1E}', '\U{1F}'}

  // ---------------------------------------------------------------- searching

  /** Index of the first `c` in `s`, or `|s|` when there is none. */
  function IndexOf(s: string, c: char): (k: nat)
    ensures k <= |s|
    ensures k < |s| ==> s[k] == c
    ensures forall i :: 0 <= i < k ==> s[i] != c
  {
    if |s| == 0 then 0 else if s[0] == c then 0 else 1 + IndexOf(s[1..], c)
  }

  /** Index of the first character of `s` that belongs to `seps`, or `|s|`. */
  function IndexOfAny(s: string, seps: set<char>): (k: nat)
    ensures k <= |s|
    ensures k < |s| ==> s[k] in seps
    ensures forall i :: 0 <= i < k ==> s[i] !in seps
  {
    if |s| == 0 then 0 else if s[0] in seps then 0 else 1 + IndexOfAny(s[1..], seps)
  }

  /** `t` occurs somewhere in `s` (Python `t in s`, Go `strings.Contains`). */
  predicate Contains(s: string, t: string) {
    exists i :: 0 <= i <= |s| && OccursAt(s, t, i)
  }

  /** `t` occurs in `s` starting at index `i`. */
  predicate OccursAt(s: string, t: string, i: nat) {
    i + |t| <= |s| && s[i..i + |t|] == t
  }

  /** Go `strings.HasPrefix`, Python `str.startswith`. */
  predicate HasPrefix(s: string, prefix: string) {
    |prefix| <= |s| && s[..|prefix|] == prefix
  }

  /** Go `strings.HasSuffix`. */
  predicate HasSuffix(s: string, suffix: string) {
    |suffix| <= |s| && s[|s| - |suffix|..] == suffix
  }

  // ---------------------------------------------------------------- split and join

  /**
   * Split at every character of `seps`, keeping empty pieces: Go `strings.Split`
   * and Python `str.split(sep)` for one separator; `Split("", c) == [""]`.
   */
  function SplitOn(s: string, seps: set<char>): (r: seq<string>)
    ensures |r| >= 1
    decreases |s|
  {
    var k := IndexOfAny(s, seps);
    if k == |s| then [s] else [s[..k]] + SplitOn(s[k + 1..], seps)
  }

  /** No piece of a split holds a separator. */
  lemma {:induction false} SplitPiecesFree(s: string, seps: set<char>)
    ensures forall i :: 0 <= i < |SplitOn(s, seps)| ==> forall j :: 0 <= j < |SplitOn(s, seps)[i]| ==> SplitOn(s, seps)[i][j] !in seps
    decreases |s|
  {
    var k := IndexOfAny(s, seps);
    if k < |s| {
      SplitPiecesFree(s[k + 1..], seps);
    }
  }

  function Split(s: string, c: char): seq<string> {
    SplitOn(s, {c})
  }

  /** Join with a separator (Python `sep.join`, Go `strings.Join`). */
  function Join(parts: seq<string>, sep: string): string {
    if |parts| == 0 then ""
    else if |parts| == 1 then parts[0]
    else parts[0] + sep + Join(parts[1..], sep)
  }

  /** The non-empty elements, in order. */
  function NonEmpty(parts: seq<string>): (r: seq<string>)
    ensures forall i :: 0 <= i < |r| ==> r[i] != []
    ensures forall x :: x in r <==> x in parts && x != []
  {
    if |parts| == 0 then []
    else if parts[0] == [] then NonEmpty(parts[1..])
    else [parts[0]] + NonEmpty(parts[1..])
  }

  /** Go `strings.Fields`: the maximal runs of non-space characters. */
  function Fields(s: string): (r: seq<string>)
    ensures forall i :: 0 <= i < |r| ==> r[i] != [] && forall j :: 0 <= j < |r[i]| ==> r[i][j] !in GoSpace
  {
    var parts := SplitOn(s, GoSpace);
    SplitPiecesFree(s, GoSpace);
    var r := NonEmpty(parts);
    assert forall i :: 0 <= i < |r| ==> r[i] in parts;
    r
  }

  /** The first piece of a split is the prefix before the first separator. */
  lemma SplitFirst(s: string, c: char)
    ensures Split(s, c)[0] == s[..IndexOf(s, c)]
  {
    IndexOfSingleton(s, c);
  }

  lemma {:induction false} IndexOfSingleton(s: string, c: char)
    ensures IndexOfAny(s, {c}) == IndexOf(s, c)
  {
    if |s| > 0 && s[0] != c {
      IndexOfSingleton(s[1..], c);
    }
  }

  /** Splitting and re-joining on the same character gives the input back. */
  lemma {:induction false} SplitJoin(s: string, c: char)
    ensures Join(Split(s, c), [c]) == s
    decreases |s|
  {
    var k := IndexOfAny(s, {c});
    if k < |s| {
      SplitJoin(s[k + 1..], c);
      assert s == s[..k] + [c] + s[k + 1..];
    }
  }

  /** Joining pieces free of `c` and splitting again gives the pieces back. */
  lemma {:induction false} JoinSplit(parts: seq<string>, c: char)
    requires |parts| >= 1
    requires forall i :: 0 <= i < |parts| ==> c !in parts[i]
    ensures Split(Join(parts, [c]), c) == parts
  {
    if |parts| == 1 {
      NoSepIndex(parts[0], c);
    } else {
      var tail := Join(parts[1..], [c]);
      assert Join(parts, [c]) == parts[0] + ([c] + tail);
      SplitCons(parts[0], tail, c);
      JoinSplit(parts[1..], c);
      assert parts == [parts[0]] + parts[1..];
    }
  }

  /** A first piece free of `c` followed by `c` splits off as the first piece. */
  lemma SplitCons(p: string, tail: string, c: char)
    requires c !in p
    ensures Split(p + ([c] + tail), c) == [p] + Split(tail, c)
  {
    var s := p + ([c] + tail);
    PrefixIndex(p, [c] + tail, c);
    assert s[..|p|] == p;
    assert s[|p| + 1..] == tail;
  }

  /** The piece after the first `c`: in `local c piece rest`, with `rest` empty or opening with `c`, it is `piece`. */
  lemma SplitSecond(local: string, piece: string, rest: string, c: char)
    requires c !in local && c !in piece
    requires rest == "" || rest[0] == c
    ensures |Split(local + [c] + piece + rest, c)| > 1
    ensures Split(local + [c] + piece + rest, c)[1] == piece
  {
    assert local + [c] + piece + rest == local + ([c] + (piece + rest));
    SplitCons(local, piece + rest, c);
    FirstPiece(piece, rest, c);
  }

  /** A `c`-free text followed by nothing or by `c` is the first piece of its split at `c`. */
  lemma FirstPiece(h: string, u: string, c: char)
    requires c !in h
    requires u == "" || u[0] == c
    ensures Split(h + u, c)[0] == h
  {
    SplitFirst(h + u, c);
    var k := IndexOf(h + u, c);
    assert forall i :: 0 <= i < |h| ==> (h + u)[i] == h[i];
    if u != "" {
      assert (h + u)[|h|] == c;
    }
    assert k == |h|;
    assert (h + u)[..|h|] == h;
  }

  lemma {:induction false} NoSepIndex(p: string, c: char)
    requires c !in p
    ensures IndexOfAny(p, {c}) == |p|
  {
    if |p| > 0 {
      assert p[0] != c;
      NoSepIndex(p[1..], c);
    }
  }

  lemma {:induction false} PrefixIndex(p: string, rest: string, c: char)
    requires c !in p
    requires |rest| > 0 && rest[0] == c
    ensures IndexOfAny(p + rest, {c}) == |p|
  {
    if |p| > 0 {
      assert (p + rest)[1..] == p[1..] + rest;
      PrefixIndex(p[1..], rest, c);
    } else {
      assert (p + rest)[0] == c;
    }
  }

  /** The first `c` of `p + rest` is the one opening `rest` when `p` has none. */
  lemma {:induction false} PrefixIndexOf(p: string, rest: string, c: char)
    requires c !in p
    requires |rest| > 0 && rest[0] == c
    ensures IndexOf(p + rest, c) == |p|
  {
    if |p| > 0 {
      assert (p + rest)[1..] == p[1..] + rest;
      PrefixIndexOf(p[1..], rest, c);
    }
  }

  /** Appending a character: a separator opens a new empty piece, anything else extends the last piece. */
  lemma {:induction false} SplitOnSnoc(s: string, c: char, seps: set<char>)
    ensures var p := SplitOn(s, seps);
            SplitOn(s + [c], seps) == if c in seps then p + [""] else p[..|p| - 1] + [p[|p| - 1] + [c]]
    decreases |s|, 1
  {
    var t := s + [c];
    IndexOfAnySnoc(s, c, seps);
    if IndexOfAny(s, seps) < |s| {
      SplitOnSnocCut(s, c, seps);
    } else if c in seps {
      assert t[..|s|] == s;
      assert t[|s| + 1..] == "";
      assert SplitOn(t, seps) == [s] + SplitOn("", seps);
    } else {
      assert SplitOn(t, seps) == [t];
    }
  }

  /** The case of `SplitOnSnoc` where `s` already holds a separator: the first piece stays, the rest recurses. */
  lemma {:induction false} SplitOnSnocCut(s: string, c: char, seps: set<char>)
    requires IndexOfAny(s, seps) < |s|
    ensures var p := SplitOn(s, seps);
            SplitOn(s + [c], seps) == if c in seps then p + [""] else p[..|p| - 1] + [p[|p| - 1] + [c]]
    decreases |s|, 0
  {
    var k := IndexOfAny(s, seps);
    var rest := s[k + 1..];
    var q, q' := SplitOn(rest, seps), SplitOn(rest + [c], seps);
    var p, p' := SplitOn(s, seps), SplitOn(s + [c], seps);
    assert p == [s[..k]] + q by { SplitOnCut(s, seps); }
    assert p' == [s[..k]] + q' by { SplitOnCutSnoc(s, c, seps); }
    assert q' == if c in seps then q + [""] else q[..|q| - 1] + [q[|q| - 1] + [c]] by { SplitOnSnoc(rest, c, seps); }
    SnocPieces([s[..k]], q, q', p, p', c in seps, c);
  }

  /** Cutting at the first separator of `s` cuts `s + [c]` at the same place. */
  lemma SplitOnCutSnoc(s: string, c: char, seps: set<char>)
    requires IndexOfAny(s, seps) < |s|
    ensures var k := IndexOfAny(s, seps);
            SplitOn(s + [c], seps) == [s[..k]] + SplitOn(s[k + 1..] + [c], seps)
  {
    var k := IndexOfAny(s, seps);
    var t := s + [c];
    assert IndexOfAny(t, seps) == k by { IndexOfAnySnoc(s, c, seps); }
    assert t[k + 1..] == s[k + 1..] + [c];
    assert t[..k] == s[..k];
    SplitOnCut(t, seps);
  }

  /** One unfolding of `SplitOn` at a separator it finds. */
  lemma SplitOnCut(t: string, seps: set<char>)
    requires IndexOfAny(t, seps) < |t|
    ensures var k := IndexOfAny(t, seps);
            SplitOn(t, seps) == [t[..k]] + SplitOn(t[k + 1..], seps)
  {
  }

  /** Prefixing a piece commutes with the two ways of appending. */
  lemma SnocPieces(a: seq<string>, q: seq<string>, q': seq<string>, p: seq<string>, p': seq<string>, sep: bool, c: char)
    requires |q| >= 1
    requires q' == if sep then q + [""] else q[..|q| - 1] + [q[|q| - 1] + [c]]
    requires p == a + q && p' == a + q'
    ensures p' == if sep then p + [""] else p[..|p| - 1] + [p[|p| - 1] + [c]]
  {
    if sep {
      assert a + (q + [""]) == p + [""];
    } else {
      assert p[..|p| - 1] == a + q[..|q| - 1];
    }
  }

  lemma IndexOfAnySnoc(s: string, c: char, seps: set<char>)
    ensures IndexOfAny(s + [c], seps)
         == if IndexOfAny(s, seps) < |s| then IndexOfAny(s, seps) else if c in seps then |s| else |s| + 1
  {
    var k := IndexOfAny(s, seps);
    var m := IndexOfAny(s + [c], seps);
    if k < |s| {
      assert (s + [c])[k] == s[k];
      assert forall i :: 0 <= i < k ==> (s + [c])[i] == s[i];
    } else {
      assert forall i :: 0 <= i < |s| ==> (s + [c])[i] == s[i];
      assert (s + [c])[|s|] == c;
    }
  }

  /** `NonEmpty` distributes over concatenation. */
  lemma {:induction false} NonEmptyAppend(a: seq<string>, b: seq<string>)
    ensures NonEmpty(a + b) == NonEmpty(a) + NonEmpty(b)
  {
    if |a| == 0 {
      assert a + b == b;
    } else {
      assert (a + b)[0] == a[0];
      assert (a + b)[1..] == a[1..] + b;
      NonEmptyAppend(a[1..], b);
    }
  }

  /** Concatenation of a sequence of lists, from the left. */
  function Flatten<T>(xs: seq<seq<T>>): seq<T> {
    if |xs| == 0 then [] else Flatten(xs[..|xs| - 1]) + xs[|xs| - 1]
  }

  lemma {:induction false} FlattenMembers<T>(xs: seq<seq<T>>)
    ensures forall x :: x in Flatten(xs) <==> exists i :: 0 <= i < |xs| && x in xs[i]
  {
    if |xs| > 0 {
      FlattenMembers(xs[..|xs| - 1]);
      assert forall i :: 0 <= i < |xs| - 1 ==> xs[..|xs| - 1][i] == xs[i];
    }
  }

  lemma FlattenStep<T>(xs: seq<seq<T>>, i: nat)
    requires i < |xs|
    ensures Flatten(xs[..i + 1]) == Flatten(xs[..i]) + xs[i]
  {
    assert xs[..i + 1][..i] == xs[..i];
  }

  // ---------------------------------------------------------------- trimming

  /** Drop leading characters of `cs` (Python `lstrip(chars)`). */
  function TrimLeft(s: string, cs: set<char>): (r: string)
    ensures |r| <= |s| && r == s[|s| - |r|..]
    ensures forall i :: 0 <= i < |s| - |r| ==> s[i] in cs
    ensures |r| > 0 ==> r[0] !in cs
  {
    if |s| > 0 && s[0] in cs then TrimLeft(s[1..], cs) else s
  }

  /** Drop trailing characters of `cs` (Python `rstrip(chars)`). */
  function TrimRight(s: string, cs: set<char>): (r: string)
    ensures |r| <= |s| && r == s[..|r|]
    ensures forall i :: |r| <= i < |s| ==> s[i] in cs
    ensures |r| > 0 ==> r[|r| - 1] !in cs
  {
    if |s| > 0 && s[|s| - 1] in cs then TrimRight(s[..|s| - 1], cs) else s
  }

  /** Drop characters of `cs` at both ends (Python `strip(chars)`, Go `strings.Trim`). */
  function Trim(s: string, cs: set<char>): (r: string)
    ensures |r| > 0 ==> r[0] !in cs && r[|r| - 1] !in cs
  {
    TrimRight(TrimLeft(s, cs), cs)
  }

  /** Python `str.strip()`. */
  function PyStrip(s: string): string {
    Trim(s, PySpace)
  }

  /** Go `strings.TrimSpace`. */
  function TrimSpace(s: string): string {
    Trim(s, GoSpace)
  }

  // ---------------------------------------------------------------- case mapping

  /**
   * ASCII case mapping. Python's `lower`/`upper` and Go's `strings.ToLower` also map
   * non-ASCII letters; the model maps only `A`..`Z` and `a`..`z`.
   */
  function LowerChar(c: char): char {
    if 'A' <= c <= 'Z' then (c as int + 32) as char else c
  }

  function UpperChar(c: char): char {
    if 'a' <= c <= 'z' then (c as int - 32) as char else c
  }

  function Lower(s: string): (r: string)
    ensures |r| == |s| && forall i :: 0 <= i < |s| ==> r[i] == LowerChar(s[i])
  {
    if |s| == 0 then [] else [LowerChar(s[0])] + Lower(s[1..])
  }

  function Upper(s: string): (r: string)
    ensures |r| == |s| && forall i :: 0 <= i < |s| ==> r[i] == UpperChar(s[i])
  {
    if |s| == 0 then [] else [UpperChar(s[0])] + Upper(s[1..])
  }

  // ---------------------------------------------------------------- replacement

  /**
   * Replace every non-overlapping occurrence of `pat`, scanning left to right (Go
   * `strings.ReplaceAll`, Python `str.replace`). An empty `pat` inserts `rep`
   * around every character.
   */
  function ReplaceAll(s: string, pat: string, rep: string): string
    decreases |s|
  {
    if |pat| == 0 then (if |s| == 0 then rep else rep + [s[0]] + ReplaceAll(s[1..], pat, rep))
    else if |s| < |pat| then s
    else if s[..|pat|] == pat then rep + ReplaceAll(s[|pat|..], pat, rep)
    else [s[0]] + ReplaceAll(s[1..], pat, rep)
  }

  /** Replacing a one-character `pat` maps every character independently. */
  function ReplaceChar(s: string, c: char, rep: string): (r: string)
    ensures r == ReplaceAll(s, [c], rep)
  {
    if |s| == 0 then []
    else (if s[0] == c then rep else [s[0]]) + ReplaceChar(s[1..], c, rep)
  }

  /** Replacing in a text that opens with the pattern replaces that occurrence first. */
  lemma ReplaceAllFront(pat: string, b: string, rep: string)
    requires |pat| > 0
    ensures ReplaceAll(pat + b, pat, rep) == rep + ReplaceAll(b, pat, rep)
  {
    assert (pat + b)[..|pat|] == pat;
    assert (pat + b)[|pat|..] == b;
  }

  /** No occurrence of `pat` starts inside `a` (at an index below `|a|`) in `a + b`. */
  predicate NoMatchIn(a: string, b: string, pat: string) {
    forall j :: 0 <= j < |a| ==> !HasPrefix((a + b)[j..], pat)
  }

  /** When no occurrence of `pat` starts inside `a`, replacing in `a + b` keeps `a` and replaces in `b`. */
  lemma {:induction false} ReplaceAllSkip(a: string, b: string, pat: string, rep: string)
    requires |pat| > 0
    requires NoMatchIn(a, b, pat)
    ensures ReplaceAll(a + b, pat, rep) == a + ReplaceAll(b, pat, rep)
    decreases |a|
  {
    if |a| > 0 {
      var s := a + b;
      assert s[0..] == s;
      if |s| < |pat| {
        assert ReplaceAll(b, pat, rep) == b;
      } else {
        assert s[..|pat|] != pat;
        assert s[1..] == a[1..] + b;
        assert NoMatchIn(a[1..], b, pat) by {
          forall j | 0 <= j < |a| - 1 ensures (a[1..] + b)[j..] == s[j + 1..] {
          }
        }
        ReplaceAllSkip(a[1..], b, pat, rep);
        assert a == [a[0]] + a[1..];
      }
    } else {
      assert a + b == b;
    }
  }

  /** A text whose first character cannot open the pattern keeps that character in front. */
  lemma ReplaceAllHead(t: string, pat: string, rep: string)
    requires |pat| > 0 && |t| > 0 && t[0] != pat[0]
    ensures |ReplaceAll(t, pat, rep)| > 0 && ReplaceAll(t, pat, rep)[0] == t[0]
  {
    if |t| >= |pat| {
      assert t[..|pat|][0] != pat[0];
    }
  }

  /** A string without `c` is left alone by replacing `c`. */
  lemma {:induction false} ReplaceAbsent(s: string, c: char, rep: string)
    requires c !in s
    ensures ReplaceAll(s, [c], rep) == s
  {
    if |s| > 0 {
      ReplaceAbsent(s[1..], c, rep);
    }
  }

  /** Replacing `c` by a string without `c` removes every `c`. */
  lemma {:induction false} ReplaceRemoves(s: string, c: char, rep: string)
    requires c !in rep
    ensures c !in ReplaceAll(s, [c], rep)
  {
    if |s| > 0 {
      ReplaceRemoves(s[1..], c, rep);
      assert ReplaceAll(s, [c], rep) == ReplaceChar(s, c, rep);
    }
  }

  // ---------------------------------------------------------------- decimal numbers

  predicate IsDigit(c: char) {
    '0' <= c <= '9'
  }

  predicate AllDigits(s: string) {
    forall i :: 0 <= i < |s| ==> IsDigit(s[i])
  }

  /** Value of a decimal digit string (the empty string reads as 0). */
  function DigitsValue(s: string): nat
    requires AllDigits(s)
  {
    if |s| == 0 then 0 else DigitsValue(s[..|s| - 1]) * 10 + (s[|s| - 1] as int - '0' as int)
  }

  /** Decimal text of `n` without leading zeros (Python `str(n)`, Go `%d`). */
  function NatToString(n: nat): (r: string)
    ensures |r| >= 1 && AllDigits(r)
    ensures DigitsValue(r) == n
    ensures n >= 10 ==> r[0] != '0'
  {
    var d := [(('0' as int) + n % 10) as char];
    if n < 10 then d
    else
      var p := NatToString(n / 10);
      assert (p + d)[..|p + d| - 1] == p;
      p + d
  }

  function IntToString(i: int): string {
    if i < 0 then "-" + NatToString(-i) else NatToString(i)
  }

  /** Four-digit numbers print as four digits. */
  lemma FourDigits(n: nat)
    requires 1000 <= n <= 9999
    ensures |NatToString(n)| == 4
  {
    var a := n / 10;
    var b := a / 10;
    var c := b / 10;
    assert 100 <= a <= 999;
    assert 10 <= b <= 99;
    assert 1 <= c <= 9;
    assert |NatToString(c)| == 1;
    assert |NatToString(b)| == |NatToString(c)| + 1;
    assert |NatToString(a)| == |NatToString(b)| + 1;
    assert |NatToString(n)| == |NatToString(a)| + 1;
  }

  // ---------------------------------------------------------------- ordering

  /** Lexicographic order on code points, which is the order of UTF-8 bytes. */
  predicate LessEq(a: string, b: string) {
    |a| == 0 || (|b| > 0 && (a[0] < b[0] || (a[0] == b[0] && LessEq(a[1..], b[1..]))))
  }

  predicate Less(a: string, b: string) {
    LessEq(a, b) && a != b
  }

  lemma {:induction false} LessEqTotal(a: string, b: string)
    ensures LessEq(a, b) || LessEq(b, a)
  {
    if |a| > 0 && |b| > 0 && a[0] == b[0] {
      LessEqTotal(a[1..], b[1..]);
    }
  }

  lemma {:induction false} LessEqAntisym(a: string, b: string)
    requires LessEq(a, b) && LessEq(b, a)
    ensures a == b
  {
    if |a| > 0 && |b| > 0 {
      LessEqAntisym(a[1..], b[1..]);
      assert a == [a[0]] + a[1..] && b == [b[0]] + b[1..];
    }
  }

  lemma {:induction false} LessEqTrans(a: string, b: string, c: string)
    requires LessEq(a, b) && LessEq(b, c)
    ensures LessEq(a, c)
  {
    if |a| > 0 && |b| > 0 && |c| > 0 && a[0] == b[0] && b[0] == c[0] {
      LessEqTrans(a[1..], b[1..], c[1..]);
    }
  }

  lemma {:induction false} LessEqRefl(a: string)
    ensures LessEq(a, a)
  {
    if |a| > 0 {
      LessEqRefl(a[1..]);
    }
  }

  predicate Sorted(s: seq<string>) {
    forall i, j :: 0 <= i < j < |s| ==> LessEq(s[i], s[j])
  }

  /** Sorted and free of duplicates. */
  predicate StrictlySorted(s: seq<string>) {
    forall i, j :: 0 <= i < j < |s| ==> Less(s[i], s[j])
  }

  /** Insert `x` into a sorted sequence, before the first element not below it. */
  function Insert(x: string, s: seq<string>): (r: seq<string>)
    ensures multiset(r) == multiset(s) + multiset{x}
    ensures Sorted(s) ==> Sorted(r)
  {
    if |s| == 0 then [x]
    else if LessEq(x, s[0]) then
      InsertFront(x, s);
      [x] + s
    else
      var t := Insert(x, s[1..]);
      assert s == [s[0]] + s[1..];
      LessEqTotal(x, s[0]);
      if Sorted(s) then
        InsertTail(s[0], x, s[1..], t);
        [s[0]] + t
      else
        [s[0]] + t
  }

  lemma InsertFront(x: string, s: seq<string>)
    requires |s| > 0 && LessEq(x, s[0])
    ensures Sorted(s) ==> Sorted([x] + s)
  {
    if Sorted(s) {
      forall j | 1 <= j < |s| + 1 ensures LessEq(([x] + s)[0], ([x] + s)[j]) {
        if j > 1 {
          LessEqTrans(x, s[0], s[j - 1]);
        }
      }
    }
  }

  lemma InsertTail(h: string, x: string, rest: seq<string>, t: seq<string>)
    requires Sorted([h] + rest) && LessEq(h, x)
    requires multiset(t) == multiset(rest) + multiset{x}
    requires Sorted(t)
    ensures Sorted([h] + t)
  {
    forall j | 0 <= j < |t| ensures LessEq(h, t[j]) {
      assert t[j] in multiset(t);
      if t[j] != x {
        assert t[j] in multiset(rest);
        var k :| 0 <= k < |rest| && rest[k] == t[j];
        assert ([h] + rest)[0] == h && ([h] + rest)[k + 1] == rest[k];
        assert LessEq(h, rest[k]);
      }
    }
    forall i, j | 0 <= i < j < |[h] + t| ensures LessEq(([h] + t)[i], ([h] + t)[j]) {
      if i > 0 {
        assert ([h] + t)[i] == t[i - 1] && ([h] + t)[j] == t[j - 1];
      } else {
        assert ([h] + t)[j] == t[j - 1];
      }
    }
  }

  /** Insertion sort: a sorted permutation of `s` (Python `sorted`, Go `sort.Strings`). */
  function Sort(s: seq<string>): (r: seq<string>)
    ensures Sorted(r) && multiset(r) == multiset(s)
  {
    if |s| == 0 then []
    else
      assert s == [s[0]] + s[1..];
      Insert(s[0], Sort(s[1..]))
  }

  /** Drop adjacent repeats (the dedup loop after Go's `sort.Strings`). */
  function Dedup(s: seq<string>): (r: seq<string>)
    ensures forall x :: x in r <==> x in s
    ensures Sorted(s) ==> StrictlySorted(r)
    ensures |s| > 0 ==> |r| > 0 && r[0] == s[0]
  {
    if |s| <= 1 then s
    else if s[0] == s[1] then Dedup(s[1..])
    else
      var t := Dedup(s[1..]);
      if Sorted(s) then
        assert Sorted(s[1..]) by {
          forall i, j | 0 <= i < j < |s[1..]| ensures LessEq(s[1..][i], s[1..][j]) {
            assert s[1..][i] == s[i + 1] && s[1..][j] == s[j + 1];
          }
        }
        DedupHead(s, t);
        [s[0]] + t
      else
        [s[0]] + t
  }

  lemma DedupHead(s: seq<string>, t: seq<string>)
    requires |s| >= 2 && s[0] != s[1] && Sorted(s)
    requires |t| > 0 && t[0] == s[1] && StrictlySorted(t)
    requires forall x :: x in t ==> x in s[1..]
    ensures StrictlySorted([s[0]] + t)
  {
    forall j | 0 <= j < |t| ensures Less(s[0], t[j]) {
      assert t[j] in s[1..];
      var k :| 1 <= k < |s| && s[k] == t[j];
      if s[0] == t[j] {
        LessEqAntisym(s[0], s[1]);
      }
    }
  }

  /** The sorted set of the elements of `s`: Python `sorted(set(s))`. */
  function SortedUnique(s: seq<string>): (r: seq<string>)
    ensures StrictlySorted(r)
    ensures forall x :: x in r <==> x in s
  {
    var t := Sort(s);
    assert forall x :: x in t <==> x in multiset(s);
    Dedup(t)
  }

  /** Two strictly sorted sequences with the same elements are equal. */
  lemma {:induction false} StrictlySortedUnique(a: seq<string>, b: seq<string>)
    requires StrictlySorted(a) && StrictlySorted(b)
    requires forall x :: x in a <==> x in b
    ensures a == b
  {
    HeadIn(a);
    HeadIn(b);
    if |a| > 0 && |b| > 0 {
      var i :| 0 <= i < |b| && b[i] == a[0];
      var j :| 0 <= j < |a| && a[j] == b[0];
      HeadLeast(a);
      HeadLeast(b);
      LessEqAntisym(a[0], b[0]);
      forall x ensures x in a[1..] <==> x in b[1..] {
        if x in a[1..] {
          var k :| 0 <= k < |a[1..]| && a[1..][k] == x;
          assert Less(a[0], a[k + 1]);
          assert a[k + 1] in a;
          assert x in b;
          var m :| 0 <= m < |b| && b[m] == x;
          assert m != 0;
          assert b[1..][m - 1] == x;
        }
        if x in b[1..] {
          var k :| 0 <= k < |b[1..]| && b[1..][k] == x;
          assert Less(b[0], b[k + 1]);
          assert b[k + 1] in b;
          assert x in a;
          var m :| 0 <= m < |a| && a[m] == x;
          assert m != 0;
          assert a[1..][m - 1] == x;
        }
      }
      StrictlySortedUnique(a[1..], b[1..]);
      assert a == [a[0]] + a[1..] && b == [b[0]] + b[1..];
    }
  }

  lemma HeadIn(a: seq<string>)
    ensures |a| > 0 ==> a[0] in a
  {
  }

  lemma HeadLeast(a: seq<string>)
    requires StrictlySorted(a)
    ensures forall j :: 0 <= j < |a| ==> LessEq(a[0], a[j])
  {
    forall j | 0 <= j < |a| ensures LessEq(a[0], a[j]) {
      if j == 0 {
        LessEqRefl(a[0]);
      }
    }
  }

  /** The elements of a finite set in increasing order (Python `sorted(set)`, Go sorted map keys). */
  ghost function SortedSet(st: set<string>): (r: seq<string>)
    ensures StrictlySorted(r)
    ensures forall x :: x in r <==> x in st
    ensures |r| == |st|
  {
    SortedSetExists(st);
    var r :| StrictlySorted(r) && (forall x :: x in r <==> x in st);
    StrictlySortedCard(r, st);
    r
  }

  /** A strictly sorted listing of a set has its cardinality. */
  lemma {:induction false} StrictlySortedCard(r: seq<string>, st: set<string>)
    requires StrictlySorted(r)
    requires forall x :: x in r <==> x in st
    ensures |r| == |st|
    decreases |r|
  {
    if |r| > 0 {
      var t := r[1..];
      assert r[0] !in t;
      assert StrictlySorted(t) by {
        forall i, j | 0 <= i < j < |t| ensures Less(t[i], t[j]) {
          assert t[i] == r[i + 1] && t[j] == r[j + 1];
        }
      }
      forall x ensures x in t <==> x in st - {r[0]} {
        if x in t {
          var j :| 0 <= j < |t| && t[j] == x;
          assert Less(r[0], r[j + 1]);
        }
        if x in st - {r[0]} {
          assert x in r;
          var j :| 0 <= j < |r| && r[j] == x;
          assert j > 0 && t[j - 1] == x;
        }
      }
      StrictlySortedCard(t, st - {r[0]});
    }
  }

  lemma SortedSetExists(st: set<string>)
    ensures exists r :: StrictlySorted(r) && (forall x :: x in r <==> x in st)
  {
    var q := SeqOfSet(st);
    var r := SortedUnique(q);
    assert StrictlySorted(r) && (forall x :: x in r <==> x in st);
  }

  lemma {:induction false} SeqOfSet(st: set<string>) returns (q: seq<string>)
    ensures forall x :: x in q <==> x in st
    decreases |st|
  {
    if st == {} {
      q := [];
    } else {
      var a :| a in st;
      var rest := SeqOfSet(st - {a});
      q := rest + [a];
    }
  }

  /** Any strictly sorted listing of a set is `SortedSet` of it. */
  lemma SortedSetUnique(st: set<string>, r: seq<string>)
    requires StrictlySorted(r)
    requires forall x :: x in r <==> x in st
    ensures r == SortedSet(st)
  {
    StrictlySortedUnique(r, SortedSet(st));
  }

  method SortSet(st: set<string>) returns (r: seq<string>)
    ensures r == SortedSet(st)
  {
    var rest := st;
    var elems: seq<string> := [];
    while rest != {}
      invariant rest <= st
      invariant forall x :: x in elems <==> x in st && x !in rest
      decreases |rest|
    {
      var x :| x in rest;
      elems := elems + [x];
      rest := rest - {x};
    }
    r := SortedUnique(elems);
    SortedSetUnique(st, r);
  }
}
