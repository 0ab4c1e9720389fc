/**
 * The RCRAInfo account profile search (scripts/rcrainfo_account_profile/main.py):
 * turning customer account rows into search terms (cleaned domains, name
 * variants), and the RCRA searcher that replaces an account batch's rows of
 * the matched-facilities table with the facilities whose names or e-mail
 * domains match.
 */
module AccountProfile {
  import opened Wrappers
  import opened Strs

  // ---------------------------------------------------------------- clean_domain

  const Https := "https://"
  const Http := "http://"
  const Www := "www."

  /** `re.sub('^' + p, '', s)` for a literal `p`: drop one leading `p`. */
  function DropPrefix(s: string, p: string): string {
    if HasPrefix(s, p) then s[|p|..] else s
  }

  /** `re.sub(r'^https?://', '', s)`. */
  function DropScheme(s: string): string {
    if HasPrefix(s, Https) then s[|Https|..] else DropPrefix(s, Http)
  }

  /** Every character of a slice of `s` is a character of `s`. */
  lemma SliceChars(s: string, i: nat, j: nat)
    requires i <= j <= |s|
    ensures forall c :: c in s[i..j] ==> c in s
  {
    forall c | c in s[i..j] ensures c in s {
      var k :| 0 <= k < j - i && s[i..j][k] == c;
      assert s[i + k] == c;
    }
  }

  /**
   * `clean_domain`: drop one leading http(s)://, then one leading "www.", cut
   * at the first '?', drop trailing '/' and strip. The result has no '?' and
   * no whitespace at either end.
   */
  function CleanDomain(domain: string): (r: string)
    ensures '?' !in r
    ensures r != "" ==> r[0] !in PySpace && r[|r| - 1] !in PySpace
  {
    var s := DropPrefix(DropScheme(domain), Www);
    var head := Split(s, '?')[0];
    SplitFirst(s, '?');
    assert '?' !in head;
    var t := TrimRight(head, {'/'});
    SliceChars(head, 0, |t|);
    var l := TrimLeft(t, PySpace);
    SliceChars(t, |t| - |l|, |t|);
    var r := TrimRight(l, PySpace);
    SliceChars(l, 0, |r|);
    r
  }

  /** A host with clean ends: not empty, no '?', no whitespace at either end and no trailing '/'. */
  predicate CleanHost(host: string) {
    host != "" && '?' !in host && host[0] !in PySpace && host[|host| - 1] !in PySpace && host[|host| - 1] != '/'
  }

  lemma StripClean(host: string)
    requires CleanHost(host)
    ensures PyStrip(TrimRight(host, {'/'})) == host
  {
  }

  lemma SchemeDropped(https: bool, t: string)
    ensures DropScheme((if https then Https else Http) + t) == t
  {
    var scheme := if https then Https else Http;
    var s := scheme + t;
    assert s[..|scheme|] == scheme;
    if !https {
      assert s[4] == ':';
    }
  }

  lemma WwwDropped(www: bool, rest: string)
    requires !www ==> !HasPrefix(rest, Www)
    ensures DropPrefix((if www then Www else "") + rest, Www) == rest
  {
    if www {
      assert (Www + rest)[..|Www|] == Www;
    } else {
      assert "" + rest == rest;
    }
  }

  lemma CutQuery(host: string, query: string)
    requires '?' !in host
    ensures Split(host + (['/', '?'] + query), '?')[0] == host + ['/']
  {
    var rest := host + (['/', '?'] + query);
    PrefixIndex(host + ['/'], ['?'] + query, '?');
    assert rest == (host + ['/']) + (['?'] + query);
    SplitFirst(rest, '?');
    assert rest[..|host| + 1] == host + ['/'];
  }

  /**
   * Cleaning a URL "http(s)://[www.]host/?query" gives back the host; a host
   * that itself starts with "www." survives only behind an explicit "www.".
   */
  lemma CleanUrl(https: bool, www: bool, host: string, query: string)
    requires CleanHost(host)
    requires !www ==> !HasPrefix(host, Www)
    ensures CleanDomain((if https then Https else Http) + ((if www then Www else "") + (host + (['/', '?'] + query)))) == host
  {
    var rest := host + (['/', '?'] + query);
    assert !www ==> !HasPrefix(rest, Www) by {
      if !www && |rest| >= |Www| {
        if |host| < |Www| {
          assert rest[|host|] == '/';
        } else {
          assert rest[..|Www|] == host[..|Www|];
        }
      }
    }
    SchemeDropped(https, (if www then Www else "") + rest);
    WwwDropped(www, rest);
    CutQuery(host, query);
    assert TrimRight(host + ['/'], {'/'}) == TrimRight(host, {'/'});
    StripClean(host);
  }

  // ---------------------------------------------------------------- is_valid_domain

  /** Substrings that reject a domain outright. */
  const Blocklist: seq<string> := [
    "yelp.com", "cm", ".pdf", ".doc", ".txt", ".html",
    "linkedin.com", "facebook.com", "twitter.com", "instagram.com", "indeed.com",
    "glassdoor.com", "monster.com", "careerbuilder.com",
    "gmail.com", "hotmail.com", "yahoo.com", "outlook.com", "aol.com", "icloud.com",
    "me.com", "msn.com", "live.com", "mail.com", "protonmail.com", "yandex.com", "zoho.com"
  ]

  predicate Blocked(n: string) {
    exists i :: 0 <= i < |Blocklist| && Contains(n, Blocklist[i])
  }

  /** `re.search(r'\d+$', n)` on a stripped string: the last character is a digit. */
  predicate EndsInDigit(n: string) {
    n != "" && IsDigit(n[|n| - 1])
  }

  predicate IsLeadChar(c: char) {
    'a' <= c <= 'z' || '0' <= c <= '9'
  }

  predicate IsMidChar(c: char) {
    IsLeadChar(c) || c == '-' || c == '.'
  }

  predicate IsTldChar(c: char) {
    'a' <= c <= 'z'
  }

  /** `^[a-z0-9][a-z0-9-.]+(\.)[a-z]{2,}$` matches with the captured '.' at index `k`. */
  predicate MatchesAt(n: string, k: nat) {
    2 <= k && k + 3 <= |n| && IsLeadChar(n[0]) && (forall i :: 1 <= i < k ==> IsMidChar(n[i])) &&
    n[k] == '.' && (forall i :: k < i < |n| ==> IsTldChar(n[i]))
  }

  /** The regular expression's reading: some split of the text fits it. */
  ghost predicate RegexShape(n: string) {
    exists k :: MatchesAt(n, k)
  }

  /** Index of the last '.', or `|n|` when there is none. */
  function LastDot(n: string): (k: nat)
    ensures k <= |n|
    ensures k < |n| ==> n[k] == '.' && forall i :: k < i < |n| ==> n[i] != '.'
    ensures k == |n| ==> forall i :: 0 <= i < |n| ==> n[i] != '.'
  {
    if n == [] then 0
    else if n[|n| - 1] == '.' then |n| - 1
    else
      var k := LastDot(n[..|n| - 1]);
      if k == |n| - 1 then |n| else k
  }

  /** Since the top-level domain holds no '.', the only candidate for the captured '.' is the last one. */
  predicate DomainShape(n: string) {
    LastDot(n) < |n| && MatchesAt(n, LastDot(n))
  }

  lemma ShapeIsRegex(n: string)
    ensures DomainShape(n) <==> RegexShape(n)
  {
    if RegexShape(n) {
      var k: nat :| MatchesAt(n, k);
      assert LastDot(n) == k;
    }
  }

  /**
   * `is_valid_domain`: after lower-casing and stripping, reject any text
   * containing a blocklist entry, any text ending in a digit, and any text
   * not of the form `^[a-z0-9][a-z0-9-.]+\.[a-z]{2,}$`. The digit test never
   * decides: the shape already ends in a letter.
   */
  function IsValidDomain(domain: string): (r: bool)
    ensures var n := PyStrip(Lower(domain)); r <==> !Blocked(n) && RegexShape(n)
  {
    var n := PyStrip(Lower(domain));
    ShapeIsRegex(n);
    if Blocked(n) then false
    else if EndsInDigit(n) then false
    else DomainShape(n)
  }

  lemma CmBlocked(n: string)
    requires Contains(n, "cm")
    ensures Blocked(n)
  {
    assert Blocklist[1] == "cm";
  }

  /** A text containing "cm" is never a valid domain: "acme.com" and "acme-co.com" are rejected. */
  lemma ContainingCmRejected(domain: string)
    requires Contains(PyStrip(Lower(domain)), "cm")
    ensures !IsValidDomain(domain)
  {
    CmBlocked(PyStrip(Lower(domain)));
  }

  // ---------------------------------------------------------------- extract_email_domain

  /** `extract_email_domain`: the lower-cased text between the first and second '@', or the whole text lower-cased. */
  function ExtractEmailDomain(email: string): (r: string)
    ensures '@' !in r
    ensures '@' !in email ==> r == Lower(email)
  {
    if '@' in email then
      var pieces := Split(email, '@');
      SplitPiecesFree(email, {'@'});
      assert |pieces| > 1 by {
        IndexOfSingleton(email, '@');
        var k :| 0 <= k < |email| && email[k] == '@';
      }
      Lower(pieces[1])
    else Lower(email)
  }

  /**
   * With an `@`, the domain is the text between the first `@` and the next one (or the
   * end), lower-cased: `local@piece` followed by nothing or by a further `@...`.
   */
  lemma EmailDomainOfAddress(local: string, piece: string, rest: string)
    requires '@' !in local && '@' !in piece
    requires rest == "" || rest[0] == '@'
    ensures ExtractEmailDomain(local + "@" + piece + rest) == Lower(piece)
  {
    var email := local + "@" + piece + rest;
    assert email[|local|] == '@';
    SplitSecond(local, piece, rest, '@');
  }

  // ---------------------------------------------------------------- clean_name_terms

  const Apostrophe := '\''

  /** Typographic right and left single quotes become a plain apostrophe. */
  function NormalizeQuotes(name: string): string {
    ReplaceChar(ReplaceChar(name, '\U{2019}', [Apostrophe]), '\U{2018}', [Apostrophe])
  }

  /**
   * `re.sub(pat + r'\b', rep, s)` for a two-character pattern `[a, b]`,
   * scanning left to right without overlap. The word boundary after `b` holds
   * when exactly one of `b` and the next character (none at the end) is a
   * word character; the set of word characters is the parameter `word`.
   */
  function SubPair(s: string, a: char, b: char, rep: string, word: char -> bool): string
    decreases |s|
  {
    if |s| < 2 then s
    else if s[0] == a && s[1] == b && word(b) != (|s| > 2 && word(s[2])) then rep + SubPair(s[2..], a, b, rep, word)
    else [s[0]] + SubPair(s[1..], a, b, rep, word)
  }

  /** The six spellings, in the order the source lists them. */
  function NameVariants(name: string, word: char -> bool): seq<string> {
    var n := NormalizeQuotes(name);
    [n, ReplaceChar(n, Apostrophe, ""), ReplaceChar(n, Apostrophe, " "),
     SubPair(n, Apostrophe, 's', "", word), SubPair(n, Apostrophe, 's', "s", word),
     SubPair(n, 's', Apostrophe, "s", word)]
  }

  /** Each variant stripped, empty ones dropped, in order. */
  function StrippedNonEmpty(vs: seq<string>): (r: seq<string>)
    ensures forall x :: x in r <==> x != "" && exists v :: v in vs && x == PyStrip(v)
  {
    if vs == [] then []
    else
      var rest := StrippedNonEmpty(vs[1..]);
      assert forall v :: v in vs <==> v == vs[0] || v in vs[1..];
      if PyStrip(vs[0]) == "" then rest else [PyStrip(vs[0])] + rest
  }

  /** The name variants as a sorted, duplicate-free list. */
  function NameTerms(name: string, word: char -> bool): seq<string> {
    SortedUnique(StrippedNonEmpty(NameVariants(name, word)))
  }

  /** `clean_name_terms`: the name variants, stripped, non-empty, sorted and joined with ';'. */
  function CleanNameTerms(name: string, word: char -> bool): string {
    Join(NameTerms(name, word), ";")
  }

  lemma StripStable(s: string)
    ensures PyStrip(PyStrip(s)) == PyStrip(s)
  {
  }

  lemma StripChars(s: string, d: char)
    requires d !in s
    ensures d !in PyStrip(s)
  {
    var l := TrimLeft(s, PySpace);
    SliceChars(s, |s| - |l|, |s|);
    SliceChars(l, 0, |PyStrip(s)|);
  }

  lemma {:induction false} ReplaceCharChars(s: string, c: char, rep: string, d: char)
    requires d !in s && d !in rep
    ensures d !in ReplaceChar(s, c, rep)
  {
    if |s| > 0 {
      ReplaceCharChars(s[1..], c, rep, d);
    }
  }

  lemma {:induction false} SubPairChars(s: string, a: char, b: char, rep: string, word: char -> bool, d: char)
    requires d !in s && d !in rep
    ensures d !in SubPair(s, a, b, rep, word)
    decreases |s|
  {
    if |s| >= 2 {
      SubPairChars(s[1..], a, b, rep, word, d);
      SubPairChars(s[2..], a, b, rep, word, d);
    }
  }

  /** When a character of the pattern is missing nothing is rewritten. */
  lemma {:induction false} SubPairAbsent(s: string, a: char, b: char, rep: string, word: char -> bool)
    requires a !in s || b !in s
    ensures SubPair(s, a, b, rep, word) == s
    decreases |s|
  {
    if |s| >= 2 {
      SubPairAbsent(s[1..], a, b, rep, word);
    }
  }

  lemma VariantsFree(name: string, word: char -> bool, d: char)
    requires d !in name && d !in "' s" && d != '\U{2019}'
    ensures forall v :: v in NameVariants(name, word) ==> d !in v
  {
    ReplaceCharChars(name, '\U{2019}', [Apostrophe], d);
    var m := ReplaceChar(name, '\U{2019}', [Apostrophe]);
    ReplaceCharChars(m, '\U{2018}', [Apostrophe], d);
    var n := NormalizeQuotes(name);
    ReplaceCharChars(n, Apostrophe, "", d);
    ReplaceCharChars(n, Apostrophe, " ", d);
    SubPairChars(n, Apostrophe, 's', "", word, d);
    SubPairChars(n, Apostrophe, 's', "s", word, d);
    SubPairChars(n, 's', Apostrophe, "s", word, d);
  }

  /**
   * The terms are strictly sorted, each stripped and non-empty, and they are
   * exactly the non-empty stripped variants.
   */
  lemma NameTermsSpec(name: string, word: char -> bool)
    ensures var terms := NameTerms(name, word);
      && StrictlySorted(terms)
      && (forall t :: t in terms ==> t != "" && PyStrip(t) == t)
      && (forall x :: x in terms <==> x != "" && exists v :: v in NameVariants(name, word) && x == PyStrip(v))
  {
    forall t | t in NameTerms(name, word)
      ensures PyStrip(t) == t
    {
      var v :| v in NameVariants(name, word) && t == PyStrip(v);
      StripStable(v);
    }
  }

  lemma TermsFree(vs: seq<string>, d: char)
    requires forall v :: v in vs ==> d !in v
    ensures forall t :: t in SortedUnique(StrippedNonEmpty(vs)) ==> d !in t
  {
    forall t | t in SortedUnique(StrippedNonEmpty(vs))
      ensures d !in t
    {
      var v :| v in vs && t == PyStrip(v);
      StripChars(v, d);
    }
  }

  /**
   * For a name without ';', splitting the joined terms on ';' gives the terms
   * back, which is how the searcher reads them.
   */
  lemma CleanNameTermsSplit(name: string, word: char -> bool)
    requires ';' !in name
    requires NameTerms(name, word) != []
    ensures Split(CleanNameTerms(name, word), ';') == NameTerms(name, word)
  {
    var terms := NameTerms(name, word);
    VariantsFree(name, word, ';');
    TermsFree(NameVariants(name, word), ';');
    JoinSplit(terms, ';');
  }

  /** A strictly sorted list holding only `y`, and `y` at least once, is `[y]`. */
  lemma SortedSingle(terms: seq<string>, y: string)
    requires StrictlySorted(terms) && y in terms
    requires forall i :: 0 <= i < |terms| ==> terms[i] == y
    ensures terms == [y]
  {
    assert |terms| >= 2 ==> terms[0] == terms[1] && !Less(terms[0], terms[1]);
  }

  /** Variants that all agree give one term. */
  lemma SameVariants(vs: seq<string>, x: string)
    requires vs != [] && PyStrip(x) != ""
    requires forall v :: v in vs ==> v == x
    ensures SortedUnique(StrippedNonEmpty(vs)) == [PyStrip(x)]
  {
    var y := PyStrip(x);
    var kept := StrippedNonEmpty(vs);
    assert vs[0] in vs;
    assert y in kept;
    KeptAllSame(vs, x);
    var terms := SortedUnique(kept);
    forall i | 0 <= i < |terms|
      ensures terms[i] == y
    {
      assert terms[i] in kept;
    }
    SortedSingle(terms, y);
  }

  lemma KeptAllSame(vs: seq<string>, x: string)
    requires forall v :: v in vs ==> v == x
    ensures forall z :: z in StrippedNonEmpty(vs) ==> z == PyStrip(x)
  {
    forall z | z in StrippedNonEmpty(vs) ensures z == PyStrip(x) {
      var v :| v in vs && z == PyStrip(v);
    }
  }

  /** A name without any apostrophe or typographic quote has the stripped name as its only term. */
  lemma PlainNameSingleTerm(name: string, word: char -> bool)
    requires Apostrophe !in name && '\U{2019}' !in name && '\U{2018}' !in name
    requires PyStrip(name) != ""
    ensures CleanNameTerms(name, word) == PyStrip(name)
  {
    ReplaceAbsent(name, '\U{2019}', [Apostrophe]);
    ReplaceAbsent(name, '\U{2018}', [Apostrophe]);
    var n := NormalizeQuotes(name);
    assert n == name;
    ReplaceAbsent(n, Apostrophe, "");
    ReplaceAbsent(n, Apostrophe, " ");
    SubPairAbsent(n, Apostrophe, 's', "", word);
    SubPairAbsent(n, Apostrophe, 's', "s", word);
    SubPairAbsent(n, 's', Apostrophe, "s", word);
    assert NameVariants(name, word) == [name, name, name, name, name, name];
    SameVariants(NameVariants(name, word), name);
  }

  // ---------------------------------------------------------------- process_domains

  /** A spreadsheet row: column name to cell text; empty (NaN) cells are absent. */
  type Row = map<string, string>

  const DomainFields: seq<string> := ["Website", "FRS Domain", "Domain for Salesloft", "Extra Domains", "SalesLoft Domain", "Other Domains (ZoomInfo)"]
  const EmailField := "Email"

  /** A comma-separated piece, stripped, lower-cased and cleaned. */
  function Cleaned(piece: string): string {
    CleanDomain(Lower(PyStrip(piece)))
  }

  /** The pieces, each passed through `clean`, that then pass `valid`. */
  function Collect(pieces: seq<string>, clean: string -> string, valid: string -> bool): (r: set<string>)
    ensures forall d :: d in r <==> valid(d) && exists i :: 0 <= i < |pieces| && d == clean(pieces[i])
  {
    if pieces == [] then {}
    else
      var last := pieces[|pieces| - 1];
      var prev := Collect(pieces[..|pieces| - 1], clean, valid);
      assert forall i :: 0 <= i < |pieces| - 1 ==> pieces[..|pieces| - 1][i] == pieces[i];
      prev + (if valid(clean(last)) then {clean(last)} else {})
  }

  /** The cleaned pieces that pass `is_valid_domain`. */
  function PiecesDomains(pieces: seq<string>): set<string> {
    Collect(pieces, Cleaned, IsValidDomain)
  }

  /** The pieces a cell contributes; an empty cell contributes none. */
  function CellDomains(row: Row, f: string, clean: string -> string, valid: string -> bool): set<string> {
    if f in row && row[f] != "" then Collect(Split(row[f], ','), clean, valid) else {}
  }

  function FieldsDomains(row: Row, fields: seq<string>, clean: string -> string, valid: string -> bool): set<string> {
    if fields == [] then {}
    else FieldsDomains(row, fields[..|fields| - 1], clean, valid) + CellDomains(row, fields[|fields| - 1], clean, valid)
  }

  /** The e-mail cell's domain, when valid; it does not go through `clean_domain`. */
  function EmailDomain(row: Row): set<string> {
    if EmailField in row && IsValidDomain(ExtractEmailDomain(row[EmailField])) then {ExtractEmailDomain(row[EmailField])} else {}
  }

  /** `process_domains` as a value. */
  function RowDomains(row: Row): set<string> {
    FieldsDomains(row, DomainFields, Cleaned, IsValidDomain) + EmailDomain(row)
  }

  lemma {:induction false} FieldsDomainsSpec(row: Row, fields: seq<string>, clean: string -> string, valid: string -> bool)
    ensures forall d :: d in FieldsDomains(row, fields, clean, valid) <==>
      exists k, i :: 0 <= k < |fields| && fields[k] in row && row[fields[k]] != "" && 0 <= i < |Split(row[fields[k]], ',')|
        && d == clean(Split(row[fields[k]], ',')[i]) && valid(d)
  {
    if fields != [] {
      var init := fields[..|fields| - 1];
      FieldsDomainsSpec(row, init, clean, valid);
      assert forall k :: 0 <= k < |init| ==> init[k] == fields[k];
    }
  }

  /**
   * Every collected domain passes `is_valid_domain`; it is a cleaned
   * comma-separated piece of a non-empty cell of one of the six domain
   * columns, or the e-mail cell's domain. Conversely every such piece that
   * passes is collected.
   */
  lemma RowDomainsSpec(row: Row, d: string)
    ensures d in RowDomains(row) <==>
      IsValidDomain(d) &&
      ((exists k, i :: 0 <= k < |DomainFields| && DomainFields[k] in row && row[DomainFields[k]] != "" && 0 <= i < |Split(row[DomainFields[k]], ',')|
          && d == Cleaned(Split(row[DomainFields[k]], ',')[i]))
       || (EmailField in row && d == ExtractEmailDomain(row[EmailField])))
  {
    FieldsDomainsSpec(row, DomainFields, Cleaned, IsValidDomain);
  }

  /** A domain taken from the six columns holds no '?'. */
  lemma FieldDomainNoQuery(row: Row, d: string)
    requires d in FieldsDomains(row, DomainFields, Cleaned, IsValidDomain)
    ensures '?' !in d
  {
    FieldsDomainsSpec(row, DomainFields, Cleaned, IsValidDomain);
  }

  /** `process_domains`: loop over the six columns and their comma-separated pieces, then the e-mail cell. */
  method ProcessDomains(row: Row) returns (domains: set<string>)
    ensures domains == RowDomains(row)
  {
    var fields := DomainFields;
    domains := AddFields(row, fields, Cleaned, IsValidDomain);
    if EmailField in row {
      var e := ExtractEmailDomain(row[EmailField]);
      if IsValidDomain(e) {
        domains := domains + {e};
      }
    }
  }

  method AddFields(row: Row, fields: seq<string>, clean: string -> string, valid: string -> bool) returns (domains: set<string>)
    ensures domains == FieldsDomains(row, fields, clean, valid)
  {
    domains := {};
    for k := 0 to |fields|
      invariant domains == FieldsDomains(row, fields[..k], clean, valid)
    {
      var f := fields[k];
      assert fields[..k + 1][..k] == fields[..k];
      if f in row && row[f] != "" {
        var pieces := Split(row[f], ',');
        var found := AddPieces(pieces, clean, valid);
        domains := domains + found;
      }
    }
    assert fields[..|fields|] == fields;
  }

  method AddPieces(pieces: seq<string>, clean: string -> string, valid: string -> bool) returns (found: set<string>)
    ensures found == Collect(pieces, clean, valid)
  {
    found := {};
    for i := 0 to |pieces|
      invariant found == Collect(pieces[..i], clean, valid)
    {
      var d := clean(pieces[i]);
      assert pieces[..i + 1][..i] == pieces[..i];
      if valid(d) {
        found := found + {d};
      }
    }
    assert pieces[..|pieces|] == pieces;
  }

  // ---------------------------------------------------------------- process_search_terms

  const KeyError := "KeyError"
  const ClassicName := "Account Name"

  /** One output row of `process_search_terms`; `None` is a NaN cell. */
  datatype SearchTerm = SearchTerm(accountId: Option<string>, accountName: Option<string>, nameTerms: string, emailTerms: string)

  /** Which columns hold the id and the name: "Account ID18"/"Account Name" when "Account Name" exists, else "account_id"/"account_name". */
  function IdColumn(classic: bool): string {
    if classic then "Account ID18" else "account_id"
  }

  function NameColumn(classic: bool): string {
    if classic then ClassicName else "account_name"
  }

  function Cell(row: Row, col: string): Option<string> {
    if col in row then Some(row[col]) else None
  }

  /** `str(cell)`: a NaN cell prints as "nan". */
  function CellText(c: Option<string>): string {
    if c.Some? then c.value else "nan"
  }

  /** The output row built from input row `row`. */
  ghost function TermOf(row: Row, idc: string, namec: string, word: char -> bool): SearchTerm {
    SearchTerm(Cell(row, idc), Cell(row, namec), CleanNameTerms(CellText(Cell(row, namec)), word), Join(SortedSet(RowDomains(row)), ";"))
  }

  /**
   * Whether `acct_id in seen_accounts` can find an id once it is added. A text
   * id is found by equality. A NaN id of a column pandas read as text is the one
   * shared `nan` object, found by identity; in a numeric column each row boxes a
   * fresh NaN, which differs from every other object, itself included.
   */
  predicate FoundAgain(id: Option<string>, textIds: bool) {
    id.Some? || textIds
  }

  /** The ids of the rows so far that a lookup can find; a fresh NaN is left out, as no lookup finds it. */
  ghost function SeenIds(rows: seq<Row>, idc: string, textIds: bool): set<Option<string>> {
    set i | 0 <= i < |rows| && FoundAgain(Cell(rows[i], idc), textIds) :: Cell(rows[i], idc)
  }

  /** Row `k` is kept: no earlier row carries an id equal to its own, where a fresh NaN equals nothing. */
  ghost predicate IsFirst(rows: seq<Row>, idc: string, textIds: bool, k: nat) {
    k < |rows| && (FoundAgain(Cell(rows[k], idc), textIds) ==> forall j :: 0 <= j < k ==> Cell(rows[j], idc) != Cell(rows[k], idc))
  }

  ghost function Maker(idc: string, namec: string, word: char -> bool): Row -> SearchTerm {
    row => TermOf(row, idc, namec, word)
  }

  /** `make` of each row whose id was not seen before, in row order. */
  ghost function FirstPerId(rows: seq<Row>, idc: string, textIds: bool, make: Row -> SearchTerm): seq<SearchTerm> {
    if rows == [] then []
    else
      var prev := FirstPerId(rows[..|rows| - 1], idc, textIds, make);
      var row := rows[|rows| - 1];
      if Cell(row, idc) in SeenIds(rows[..|rows| - 1], idc, textIds) then prev
      else prev + [make(row)]
  }

  /**
   * `process_search_terms` on the table's column names and rows; `textIds` says
   * whether pandas read the id column as text.
   */
  ghost function SearchTerms(columns: seq<string>, rows: seq<Row>, textIds: bool, word: char -> bool): Result<seq<SearchTerm>> {
    var classic := ClassicName in columns;
    if rows != [] && (IdColumn(classic) !in columns || NameColumn(classic) !in columns) then Err(KeyError)
    else Ok(FirstPerId(rows, IdColumn(classic), textIds, Maker(IdColumn(classic), NameColumn(classic), word)))
  }

  /** Each row read adds its id to the seen ids, unless it is a fresh NaN. */
  lemma SeenIdsSnoc(rows: seq<Row>, idc: string, textIds: bool)
    requires rows != []
    ensures var row := rows[|rows| - 1];
      SeenIds(rows, idc, textIds) == SeenIds(rows[..|rows| - 1], idc, textIds) + (if FoundAgain(Cell(row, idc), textIds) then {Cell(row, idc)} else {})
  {
    var init := rows[..|rows| - 1];
    assert forall i :: 0 <= i < |init| ==> init[i] == rows[i];
  }

  /** No id a lookup can find occurs twice among the terms. */
  predicate DistinctIds(out: seq<SearchTerm>, textIds: bool) {
    forall i, j :: 0 <= i < j < |out| && FoundAgain(out[i].accountId, textIds) ==> out[i].accountId != out[j].accountId
  }

  /** Kept rows have ids already seen, and carry no id twice, a text column's NaN included. */
  lemma {:induction false} FirstPerIdIds(rows: seq<Row>, idc: string, textIds: bool, make: Row -> SearchTerm)
    requires forall row :: make(row).accountId == Cell(row, idc)
    ensures var out := FirstPerId(rows, idc, textIds, make);
      && (forall t :: t in out && FoundAgain(t.accountId, textIds) ==> t.accountId in SeenIds(rows, idc, textIds))
      && DistinctIds(out, textIds)
  {
    if rows != [] {
      var n := |rows| - 1;
      var init := rows[..n];
      var row := rows[n];
      FirstPerIdIds(init, idc, textIds, make);
      SeenIdsSnoc(rows, idc, textIds);
      var prev := FirstPerId(init, idc, textIds, make);
      if Cell(row, idc) !in SeenIds(init, idc, textIds) {
        FirstPerIdKeep(rows, idc, textIds, make, prev);
      } else {
        var out := FirstPerId(rows, idc, textIds, make);
        assert out == prev;
        assert SeenIds(init, idc, textIds) <= SeenIds(rows, idc, textIds);
        forall i, j | 0 <= i < j < |out| && FoundAgain(out[i].accountId, textIds)
          ensures out[i].accountId != out[j].accountId
        {
          assert out[i] == prev[i] && out[j] == prev[j];
        }
      }
    }
  }

  /** A last row with an unseen id is kept, and the ids stay distinct. */
  lemma FirstPerIdKeep(rows: seq<Row>, idc: string, textIds: bool, make: Row -> SearchTerm, prev: seq<SearchTerm>)
    requires rows != [] && prev == FirstPerId(rows[..|rows| - 1], idc, textIds, make)
    requires forall row :: make(row).accountId == Cell(row, idc)
    requires Cell(rows[|rows| - 1], idc) !in SeenIds(rows[..|rows| - 1], idc, textIds)
    requires forall t :: t in prev && FoundAgain(t.accountId, textIds) ==> t.accountId in SeenIds(rows[..|rows| - 1], idc, textIds)
    requires DistinctIds(prev, textIds)
    requires var row := rows[|rows| - 1];
      SeenIds(rows, idc, textIds) == SeenIds(rows[..|rows| - 1], idc, textIds) + (if FoundAgain(Cell(row, idc), textIds) then {Cell(row, idc)} else {})
    ensures var out := FirstPerId(rows, idc, textIds, make);
      && (forall t :: t in out && FoundAgain(t.accountId, textIds) ==> t.accountId in SeenIds(rows, idc, textIds))
      && DistinctIds(out, textIds)
  {
    var init := rows[..|rows| - 1];
    var row := rows[|rows| - 1];
    var out := FirstPerId(rows, idc, textIds, make);
    assert out == prev + [make(row)];
    forall t | t in out && FoundAgain(t.accountId, textIds)
      ensures t.accountId in SeenIds(rows, idc, textIds)
    {
      if t !in prev {
        assert t == make(row);
      }
    }
    forall i, j | 0 <= i < j < |out| && FoundAgain(out[i].accountId, textIds)
      ensures out[i].accountId != out[j].accountId
    {
      assert out[i] == prev[i] && out[i] in prev;
      if j < |prev| {
        assert out[j] == prev[j];
      } else {
        assert out[j].accountId == Cell(row, idc);
        assert out[i].accountId in SeenIds(init, idc, textIds);
      }
    }
  }

  lemma FirstPrefix(rows: seq<Row>, idc: string, textIds: bool, k: nat)
    requires k < |rows| - 1
    ensures IsFirst(rows, idc, textIds, k) <==> IsFirst(rows[..|rows| - 1], idc, textIds, k)
  {
  }

  /** The last row is kept exactly when its id was not seen before. */
  lemma FirstLast(rows: seq<Row>, idc: string, textIds: bool)
    requires rows != []
    ensures IsFirst(rows, idc, textIds, |rows| - 1) <==> Cell(rows[|rows| - 1], idc) !in SeenIds(rows[..|rows| - 1], idc, textIds)
  {
    var n := |rows| - 1;
    var row := rows[n];
    if Cell(row, idc) in SeenIds(rows[..n], idc, textIds) {
      var i :| 0 <= i < n && FoundAgain(Cell(rows[..n][i], idc), textIds) && Cell(rows[..n][i], idc) == Cell(row, idc);
      assert Cell(rows[i], idc) == Cell(row, idc);
    } else if FoundAgain(Cell(row, idc), textIds) {
      forall j | 0 <= j < n
        ensures Cell(rows[j], idc) != Cell(row, idc)
      {
        assert rows[..n][j] == rows[j];
      }
    }
  }

  /** Every output row comes from a row whose id was not seen before. */
  lemma {:induction false} FirstPerIdSound(rows: seq<Row>, idc: string, textIds: bool, make: Row -> SearchTerm)
    ensures forall t :: t in FirstPerId(rows, idc, textIds, make) ==> exists k: nat :: IsFirst(rows, idc, textIds, k) && t == make(rows[k])
  {
    if rows != [] {
      var n := |rows| - 1;
      var init := rows[..n];
      FirstPerIdSound(init, idc, textIds, make);
      FirstLast(rows, idc, textIds);
      var prev := FirstPerId(init, idc, textIds, make);
      forall t | t in FirstPerId(rows, idc, textIds, make)
        ensures exists k: nat :: IsFirst(rows, idc, textIds, k) && t == make(rows[k])
      {
        if t in prev {
          var k: nat :| IsFirst(init, idc, textIds, k) && t == make(init[k]);
          FirstPrefix(rows, idc, textIds, k);
          assert IsFirst(rows, idc, textIds, k) && t == make(rows[k]);
        } else {
          assert IsFirst(rows, idc, textIds, n) && t == make(rows[n]);
        }
      }
    }
  }

  /** Every row whose id was not seen before gives an output row. */
  lemma {:induction false} FirstPerIdComplete(rows: seq<Row>, idc: string, textIds: bool, make: Row -> SearchTerm)
    ensures forall k: nat :: IsFirst(rows, idc, textIds, k) ==> make(rows[k]) in FirstPerId(rows, idc, textIds, make)
  {
    if rows != [] {
      var n := |rows| - 1;
      var init := rows[..n];
      FirstPerIdComplete(init, idc, textIds, make);
      FirstLast(rows, idc, textIds);
      var prev := FirstPerId(init, idc, textIds, make);
      assert prev <= FirstPerId(rows, idc, textIds, make);
      forall k: nat | IsFirst(rows, idc, textIds, k)
        ensures make(rows[k]) in FirstPerId(rows, idc, textIds, make)
      {
        if k < n {
          FirstPrefix(rows, idc, textIds, k);
          assert init[k] == rows[k];
          assert make(rows[k]) in prev;
        }
      }
    }
  }

  /**
   * Two rows with NaN ids and one with an id: a text id column keeps the first
   * NaN row only, a numeric one keeps both.
   */
  lemma NaNIdRows(idc: string, other: string, make: Row -> SearchTerm)
    requires idc != other
    ensures var rows := [map[other := "Acme"], map[other := "Beta"], map[idc := "001A000001", other := "Gamma"]];
      && FirstPerId(rows, idc, true, make) == [make(rows[0]), make(rows[2])]
      && FirstPerId(rows, idc, false, make) == [make(rows[0]), make(rows[1]), make(rows[2])]
  {
    var rows := [map[other := "Acme"], map[other := "Beta"], map[idc := "001A000001", other := "Gamma"]];
    var one, two := rows[..1], rows[..2];
    assert one[..0] == [] && two[..1] == one && rows[..2] == two;
    assert Cell(rows[0], idc) == None && Cell(rows[1], idc) == None;
    assert Cell(rows[2], idc) == Some("001A000001");
    assert FirstPerId(one, idc, true, make) == [make(rows[0])];
    assert FirstPerId(one, idc, false, make) == [make(rows[0])];
    assert SeenIds(one, idc, true) == {None};
    assert SeenIds(one, idc, false) == {};
    assert FirstPerId(two, idc, true, make) == [make(rows[0])];
    assert FirstPerId(two, idc, false, make) == [make(rows[0]), make(rows[1])];
    assert SeenIds(two, idc, true) == {None} by {
      assert two[0] == rows[0] && two[1] == rows[1];
    }
    assert SeenIds(two, idc, false) == {} by {
      assert two[0] == rows[0] && two[1] == rows[1];
    }
  }

  /**
   * `process_search_terms` fails with KeyError exactly when there is a row
   * and the id or name column is missing; otherwise its rows carry distinct
   * ids (a fresh NaN aside) and are exactly the terms of the rows whose id was
   * not seen before.
   */
  lemma SearchTermsSpec(columns: seq<string>, rows: seq<Row>, textIds: bool, word: char -> bool)
    ensures var classic := ClassicName in columns;
      var idc := IdColumn(classic);
      var namec := NameColumn(classic);
      var r := SearchTerms(columns, rows, textIds, word);
      && (r.Err? <==> rows != [] && (idc !in columns || namec !in columns))
      && (r.Ok? ==>
        && (forall i, j :: 0 <= i < j < |r.value| && FoundAgain(r.value[i].accountId, textIds) ==> r.value[i].accountId != r.value[j].accountId)
        && (forall t :: t in r.value ==> exists k: nat :: IsFirst(rows, idc, textIds, k) && t == TermOf(rows[k], idc, namec, word))
        && (forall k: nat :: IsFirst(rows, idc, textIds, k) ==> TermOf(rows[k], idc, namec, word) in r.value))
  {
    var classic := ClassicName in columns;
    TermsAt(rows, IdColumn(classic), NameColumn(classic), textIds, word);
  }

  lemma TermsAt(rows: seq<Row>, idc: string, namec: string, textIds: bool, word: char -> bool)
    ensures var out := FirstPerId(rows, idc, textIds, Maker(idc, namec, word));
      && (forall i, j :: 0 <= i < j < |out| && FoundAgain(out[i].accountId, textIds) ==> out[i].accountId != out[j].accountId)
      && (forall t :: t in out ==> exists k: nat :: IsFirst(rows, idc, textIds, k) && t == TermOf(rows[k], idc, namec, word))
      && (forall k: nat :: IsFirst(rows, idc, textIds, k) ==> TermOf(rows[k], idc, namec, word) in out)
  {
    var make := Maker(idc, namec, word);
    assert forall row :: make(row).accountId == Cell(row, idc);
    FirstPerIdIds(rows, idc, textIds, make);
    FirstPerIdSound(rows, idc, textIds, make);
    FirstPerIdComplete(rows, idc, textIds, make);
  }

  /** One turn of the row loop: row `i` is skipped iff its id was seen, and then adds its id unless it is a fresh NaN. */
  lemma RowStep(rows: seq<Row>, i: nat, idc: string, textIds: bool, make: Row -> SearchTerm)
    requires i < |rows|
    ensures var id := Cell(rows[i], idc);
      && FirstPerId(rows[..i + 1], idc, textIds, make)
         == (if id in SeenIds(rows[..i], idc, textIds) then FirstPerId(rows[..i], idc, textIds, make) else FirstPerId(rows[..i], idc, textIds, make) + [make(rows[i])])
      && SeenIds(rows[..i + 1], idc, textIds)
         == (if id in SeenIds(rows[..i], idc, textIds) || !FoundAgain(id, textIds) then SeenIds(rows[..i], idc, textIds) else SeenIds(rows[..i], idc, textIds) + {id})
  {
    var id := Cell(rows[i], idc);
    assert rows[..i + 1][..i] == rows[..i];
    assert rows[..i + 1][i] == rows[i];
    SeenIdsSnoc(rows[..i + 1], idc, textIds);
    if id in SeenIds(rows[..i], idc, textIds) {
      assert SeenIds(rows[..i], idc, textIds) + {id} == SeenIds(rows[..i], idc, textIds);
    }
  }

  /** `process_search_terms`: one row per account id (the first), with name and e-mail terms. */
  method ProcessSearchTerms(columns: seq<string>, rows: seq<Row>, textIds: bool, word: char -> bool) returns (r: Result<seq<SearchTerm>>)
    ensures r == SearchTerms(columns, rows, textIds, word)
  {
    var classic := ClassicName in columns;
    var idc := IdColumn(classic);
    var namec := NameColumn(classic);
    var out: seq<SearchTerm> := [];
    var seen: set<Option<string>> := {};
    for i := 0 to |rows|
      invariant out == FirstPerId(rows[..i], idc, textIds, Maker(idc, namec, word))
      invariant seen == SeenIds(rows[..i], idc, textIds)
      invariant i > 0 ==> idc in columns && namec in columns
    {
      if idc !in columns || namec !in columns {
        return Err(KeyError);
      }
      var row := rows[i];
      RowStep(rows, i, idc, textIds, Maker(idc, namec, word));
      var id := Cell(row, idc);
      var name := Cell(row, namec);
      if id in seen {
        continue;
      }
      if FoundAgain(id, textIds) {
        seen := seen + {id};
      }
      var domains := ProcessDomains(row);
      var sorted := SortSet(domains);
      var term := SearchTerm(id, name, CleanNameTerms(CellText(name), word), Join(sorted, ";"));
      assert term == Maker(idc, namec, word)(row);
      out := out + [term];
    }
    assert rows[..|rows|] == rows;
    return Ok(out);
  }
}
