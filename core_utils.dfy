/**
 * The second copy of subject matching and selector derivation kept in the
 * `core` package (internal/utils.go), proved to compute the same functions as
 * the `util` package's copy.
 */
module CoreUtils {
  import opened Strs
  import Subject

  /** The same token scan as `Subject.SubjectMatches`, decided against the util relation. */
  method SubjectMatches(pattern: string, subj: string) returns (b: bool)
    ensures b == Subject.Matches(pattern, subj)
  {
    if pattern == subj {
      return true;
    }
    var pTok := Split(pattern, '.');
    var sTok := Split(subj, '.');
    for i := 0 to |pTok|
      invariant i <= |sTok|
      invariant Subject.TokensMatch(pTok, sTok) == Subject.TokensMatch(pTok[i..], sTok[i..])
    {
      var pt := pTok[i];
      if pt == ">" {
        return true;
      }
      if pt == "*" {
        if i >= |sTok| {
          return false;
        }
        assert pTok[i..][1..] == pTok[i + 1..] && sTok[i..][1..] == sTok[i + 1..];
        continue;
      }
      if i >= |sTok| {
        return false;
      }
      if pt != sTok[i] {
        return false;
      }
      assert pTok[i..][1..] == pTok[i + 1..] && sTok[i..][1..] == sTok[i + 1..];
    }
    return |sTok| == |pTok|;
  }

  /** Per-character rewrite of this package's replacer. */
  function IdChar(c: char): string {
    match c
    case '.' => "-"
    case '*' => "wild"
    case '>' => "fullwild"
    case _ => [c]
  }

  /** The DOM-safe selector `#sub-<id>` built by this package. */
  function SelectorFor(subj: string): (r: string)
    ensures r == Subject.SelectorFor(subj)
  {
    SameReplacement(subj);
    "#sub-" + Id(subj)
  }

  function Id(s: string): string {
    if |s| == 0 then [] else IdChar(s[0]) + Id(s[1..])
  }

  lemma {:induction false} SameReplacement(s: string)
    ensures Id(s) == Subject.ReplaceSubject(s)
  {
    if |s| > 0 {
      SameReplacement(s[1..]);
    }
  }
}
