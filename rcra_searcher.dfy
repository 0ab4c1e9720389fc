/**
 * `RCRASearcher` of scripts/rcrainfo_account_profile/main.py: for each
 * search-term row, the facilities of the handler/owner/operator view whose
 * names match the account's name terms (word-bounded, upper-cased) or whose
 * e-mail domains are among the account's domains are appended to the
 * persisted match table, after the rows of the batch's accounts have been
 * deleted. The view is a sequence of facility records; the SQL predicates
 * are functions on them.
 */
module RcraSearcher {
  import opened Wrappers
  import opened Strs
  import AccountProfile

  const AttributeError := "AttributeError"

  // ---------------------------------------------------------------- inputs

  /** A search-term row as read back from its CSV file; `None` is a NaN cell. */
  datatype Input = Input(accountId: Option<string>, accountName: Option<string>, nameTerms: Option<string>, emailTerms: Option<string>)

  /** The cell texts `pandas.read_csv` reads as NaN by default. */
  const PandasNa: set<string> := {
    "", "#N/A", "#N/A N/A", "#NA", "-1.#IND", "-1.#QNAN", "-NaN", "-nan", "1.#IND", "1.#QNAN",
    "<NA>", "N/A", "NA", "NULL", "NaN", "None", "n/a", "nan", "null"}

  /** One cell read back: NaN for a default NA text, the text otherwise. */
  function NaCell(c: string): (r: Option<string>)
    ensures r.None? <==> c in PandasNa
    ensures r.Some? ==> r.value == c
  {
    if c in PandasNa then None else Some(c)
  }

  /** A cell that may already be NaN; a NaN is written as an empty field and read back as NaN. */
  function NaOption(c: Option<string>): (r: Option<string>)
    ensures r.None? <==> c.None? || c.value in PandasNa
    ensures r.Some? ==> r == c
  {
    if c.None? then None else NaCell(c.value)
  }

  /** Writing a term row to CSV and reading it back turns every default NA text into NaN. */
  function ReadBack(t: AccountProfile.SearchTerm): Input {
    Input(NaOption(t.accountId), NaOption(t.accountName), NaCell(t.nameTerms), NaCell(t.emailTerms))
  }

  /** `[x.strip() for x in s.split(';') if x.strip()]` over the pieces. */
  function StrippedPieces(pieces: seq<string>): (r: seq<string>)
    ensures forall i :: 0 <= i < |r| ==> r[i] != "" && PyStrip(r[i]) == r[i]
  {
    if pieces == [] then []
    else
      var prev := StrippedPieces(pieces[..|pieces| - 1]);
      var x := PyStrip(pieces[|pieces| - 1]);
      AccountProfile.StripStable(pieces[|pieces| - 1]);
      if x == "" then prev else prev + [x]
  }

  function NameList(nameTerms: string): seq<string> {
    StrippedPieces(Split(nameTerms, ';'))
  }

  function LowerAll(xs: seq<string>): (r: seq<string>)
    ensures |r| == |xs| && forall i :: 0 <= i < |xs| ==> r[i] == Lower(xs[i])
  {
    if xs == [] then [] else [Lower(xs[0])] + LowerAll(xs[1..])
  }

  /** The e-mail domain list; a NaN cell gives none. */
  function EmailList(emailTerms: Option<string>): seq<string> {
    if emailTerms.None? then [] else LowerAll(StrippedPieces(Split(emailTerms.value, ';')))
  }

  // ---------------------------------------------------------------- _create_word_pattern

  /** The characters Python's `re.escape` puts a backslash before. */
  const ReSpecial: set<char> := {'(', ')', '[', ']', '{', '}', '?', '*', '+', '-', '|', '^', '$', '\\', '.', '&', '~', '#', ' ', '\t', '\n', '\r', '\U{000B}', '\U{000C}'}

  function ReEscape(s: string): string {
    if s == [] then [] else (if s[0] in ReSpecial then ['\\', s[0]] else [s[0]]) + ReEscape(s[1..])
  }

  const Boundary := "\\b"

  /** One alternative: the upper-cased, escaped text between word boundaries. */
  function Token(piece: string): string {
    Boundary + ReEscape(Upper(piece)) + Boundary
  }

  /** The stripped, non-empty ';'-pieces of every term, in order. */
  function PatternPieces(terms: seq<string>): seq<string> {
    if terms == [] then []
    else PatternPieces(terms[..|terms| - 1]) + StrippedPieces(Split(terms[|terms| - 1], ';'))
  }

  function Tokens(pieces: seq<string>): (r: seq<string>)
    ensures |r| == |pieces|
  {
    if pieces == [] then [] else Tokens(pieces[..|pieces| - 1]) + [Token(pieces[|pieces| - 1])]
  }

  /** Builder order does not matter: the tokens are the first piece's token, then the rest's. */
  lemma {:induction false} TokensCons(pieces: seq<string>)
    requires |pieces| > 0
    ensures Tokens(pieces) == [Token(pieces[0])] + Tokens(pieces[1..])
  {
    var n := |pieces| - 1;
    if n > 0 {
      var init := pieces[..n];
      TokensCons(init);
      assert init[1..] == pieces[1..][..n - 1];
      assert init[0] == pieces[0];
      assert pieces[1..][n - 1] == pieces[n];
    } else {
      assert pieces[..0] == [] && pieces[1..] == [];
    }
  }

  /** `_create_word_pattern`: one token per stripped non-empty piece, joined by '|'. */
  method CreateWordPattern(terms: seq<string>) returns (pattern: string)
    ensures pattern == Join(Tokens(PatternPieces(terms)), "|")
  {
    var tokens: seq<string> := [];
    for i := 0 to |terms|
      invariant tokens == Tokens(PatternPieces(terms[..i]))
    {
      var subs := Split(terms[i], ';');
      PiecesSnoc(terms, i, subs);
      tokens := AppendTokens(tokens, PatternPieces(terms[..i]), subs);
    }
    assert terms[..|terms|] == terms;
    pattern := Join(tokens, "|");
  }

  lemma PiecesSnoc(terms: seq<string>, i: nat, subs: seq<string>)
    requires i < |terms| && subs == Split(terms[i], ';')
    ensures PatternPieces(terms[..i + 1]) == PatternPieces(terms[..i]) + StrippedPieces(subs)
  {
    assert terms[..i + 1][..i] == terms[..i];
  }

  /** The inner loop: the tokens of one term's ';'-pieces appended to those so far. */
  method AppendTokens(tokens0: seq<string>, ghost before: seq<string>, subs: seq<string>) returns (tokens: seq<string>)
    requires tokens0 == Tokens(before)
    ensures tokens == Tokens(before + StrippedPieces(subs))
  {
    tokens := tokens0;
    ghost var done := before;
    assert before + StrippedPieces(subs[..0]) == before;
    for j := 0 to |subs|
      invariant done == before + StrippedPieces(subs[..j])
      invariant tokens == Tokens(done)
    {
      var cleaned := PyStrip(subs[j]);
      StrippedSnoc(subs, j);
      if cleaned != "" {
        TokensSnoc(done, cleaned);
        tokens := tokens + [Token(cleaned)];
        done := done + [cleaned];
      }
    }
    assert subs[..|subs|] == subs;
  }

  /** One more piece: kept, stripped, when it is not blank. */
  lemma StrippedSnoc(subs: seq<string>, j: nat)
    requires j < |subs|
    ensures var x := PyStrip(subs[j]);
            StrippedPieces(subs[..j + 1]) == if x == "" then StrippedPieces(subs[..j]) else StrippedPieces(subs[..j]) + [x]
  {
    assert subs[..j + 1][..j] == subs[..j];
  }

  lemma TokensSnoc(xs: seq<string>, x: string)
    ensures Tokens(xs + [x]) == Tokens(xs) + [Token(x)]
  {
    assert (xs + [x])[..|xs|] == xs;
  }

  // ---------------------------------------------------------------- reading the pattern back

  /** The regular-expression syntax the pattern is read as. */
  datatype Atom = Lit(c: char) | WordEdge | Bar | Open | Close

  /** Read a pattern: `\b` is a word boundary, `\c` the literal `c`, '|' an alternation, '(' and ')' a group. */
  function Decode(p: string): seq<Atom>
    decreases |p|
  {
    if p == [] then []
    else if p[0] == '\\' && |p| >= 2 then (if p[1] == 'b' then [WordEdge] else [Lit(p[1])]) + Decode(p[2..])
    else if p[0] == '|' then [Bar] + Decode(p[1..])
    else if p[0] == '(' then [Open] + Decode(p[1..])
    else if p[0] == ')' then [Close] + Decode(p[1..])
    else [Lit(p[0])] + Decode(p[1..])
  }

  function Lits(s: string): (r: seq<Atom>)
    ensures |r| == |s|
  {
    if s == [] then [] else [Lit(s[0])] + Lits(s[1..])
  }

  /** The alternation `\bt1\b|\bt2\b|...` of the given texts. */
  function Alternation(texts: seq<string>): seq<Atom> {
    if texts == [] then []
    else if |texts| == 1 then [WordEdge] + Lits(texts[0]) + [WordEdge]
    else [WordEdge] + Lits(texts[0]) + [WordEdge] + [Bar] + Alternation(texts[1..])
  }

  /** An escaped text reads back as its characters, whatever follows. */
  lemma {:induction false} DecodeEscape(s: string, rest: string)
    ensures Decode(ReEscape(s) + rest) == Lits(s) + Decode(rest)
  {
    if s != [] {
      DecodeEscape(s[1..], rest);
      var c := s[0];
      var tail := ReEscape(s[1..]) + rest;
      var x := ReEscape(s) + rest;
      assert Lits(s) == [Lit(c)] + Lits(s[1..]);
      if c in ReSpecial {
        assert c != 'b';
        assert x == ['\\', c] + tail;
        assert x[0] == '\\' && x[1] == c && x[2..] == tail;
      } else {
        assert c != '\\' && c != '|' && c != '(' && c != ')';
        assert x == [c] + tail;
        assert x[0] == c && x[1..] == tail;
      }
      assert Decode(x) == [Lit(c)] + Decode(tail);
      assert Decode(tail) == Lits(s[1..]) + Decode(rest);
    } else {
      assert ReEscape(s) + rest == rest;
    }
  }

  lemma DecodeEdge(rest: string)
    ensures Decode(Boundary + rest) == [WordEdge] + Decode(rest)
  {
    assert (Boundary + rest)[2..] == rest;
  }

  lemma DecodeBar(rest: string)
    ensures Decode(['|'] + rest) == [Bar] + Decode(rest)
  {
    assert (['|'] + rest)[1..] == rest;
  }

  lemma DecodeToken(piece: string, rest: string)
    ensures Decode(Token(piece) + rest) == [WordEdge] + Lits(Upper(piece)) + [WordEdge] + Decode(rest)
  {
    var e := ReEscape(Upper(piece));
    assert Token(piece) + rest == Boundary + (e + (Boundary + rest));
    DecodeEdge(e + (Boundary + rest));
    DecodeEscape(Upper(piece), Boundary + rest);
    DecodeEdge(rest);
  }

  function UpperAll(xs: seq<string>): (r: seq<string>)
    ensures |r| == |xs| && forall i :: 0 <= i < |xs| ==> r[i] == Upper(xs[i])
  {
    if xs == [] then [] else [Upper(xs[0])] + UpperAll(xs[1..])
  }

  lemma {:induction false} DecodeJoin(pieces: seq<string>, rest: string)
    ensures Decode(Join(Tokens(pieces), "|") + rest) == Alternation(UpperAll(pieces)) + Decode(rest)
  {
    var tokens := Tokens(pieces);
    if pieces == [] {
      assert Join(tokens, "|") + rest == rest;
    } else if |pieces| == 1 {
      assert Join(tokens, "|") == Token(pieces[0]);
      DecodeToken(pieces[0], rest);
    } else {
      var tail := pieces[1..];
      DecodeJoin(tail, rest);
      DecodeJoinStep(pieces, rest);
    }
  }

  lemma DecodeJoinStep(pieces: seq<string>, rest: string)
    requires |pieces| > 1
    ensures Decode(Join(Tokens(pieces), "|") + rest) == [WordEdge] + Lits(Upper(pieces[0])) + [WordEdge] + [Bar] + Decode(Join(Tokens(pieces[1..]), "|") + rest)
  {
    var joined := Join(Tokens(pieces[1..]), "|");
    JoinTokensCons(pieces);
    Regroup(Token(pieces[0]), joined, rest);
    DecodeTokenBar(pieces[0], joined + rest);
  }

  lemma Regroup(t: string, joined: string, rest: string)
    ensures t + "|" + joined + rest == t + (['|'] + (joined + rest))
  {
  }

  /** A token followed by a bar reads as the word-bounded text and an alternation. */
  lemma DecodeTokenBar(piece: string, x: string)
    ensures Decode(Token(piece) + (['|'] + x)) == [WordEdge] + Lits(Upper(piece)) + [WordEdge] + [Bar] + Decode(x)
  {
    DecodeBar(x);
    DecodeToken(piece, ['|'] + x);
  }

  /** The joined tokens are the first piece's token, a bar, then the rest joined. */
  lemma JoinTokensCons(pieces: seq<string>)
    requires |pieces| > 1
    ensures Join(Tokens(pieces), "|") == Token(pieces[0]) + "|" + Join(Tokens(pieces[1..]), "|")
  {
    var tokens := Tokens(pieces);
    TokensCons(pieces);
    assert tokens[0] == Token(pieces[0]);
    assert tokens[1..] == Tokens(pieces[1..]);
  }

  /**
   * The parenthesised pattern reads back as a group holding exactly one
   * word-bounded alternative per piece, upper-cased, in order; with no
   * pieces it is the empty group "()".
   */
  lemma WordPatternReads(terms: seq<string>)
    ensures Decode("(" + Join(Tokens(PatternPieces(terms)), "|") + ")") == [Open] + Alternation(UpperAll(PatternPieces(terms))) + [Close]
  {
    var pieces := PatternPieces(terms);
    var body := Join(Tokens(pieces), "|");
    DecodeJoin(pieces, ")");
    DecodeGroup(body, Alternation(UpperAll(pieces)));
  }

  /** A parenthesised text reads as a group around what the text reads as. */
  lemma DecodeGroup(body: string, inner: seq<Atom>)
    requires Decode(body + ")") == inner + Decode(")")
    ensures Decode("(" + body + ")") == [Open] + inner + [Close]
  {
    var x := body + [')'];
    assert "(" + body + ")" == ['('] + x;
    assert (['('] + x)[1..] == x;
    assert Decode([')']) == [Close] + Decode([]);
  }

  // ---------------------------------------------------------------- SQL string literals

  /** `s.replace("'", "''")`, as the source does before placing text inside '...'. */
  function SqlQuote(s: string): string {
    ReplaceChar(s, '\'', "''")
  }

  /** How the SQL engine reads the inside of a '...' literal: "''" is one quote. */
  function SqlUnquote(s: string): string
    decreases |s|
  {
    if s == [] then []
    else if |s| >= 2 && s[0] == '\'' && s[1] == '\'' then ['\''] + SqlUnquote(s[2..])
    else [s[0]] + SqlUnquote(s[1..])
  }

  /** Quote doubling is undone by the engine: the pattern and the account name arrive unchanged. */
  lemma {:induction false} SqlRoundTrip(s: string)
    ensures SqlUnquote(SqlQuote(s)) == s
  {
    if s != [] {
      SqlRoundTrip(s[1..]);
      var q := SqlQuote(s[1..]);
      if s[0] == '\'' {
        assert SqlQuote(s) == ['\'', '\''] + q;
        assert (['\'', '\''] + q)[2..] == q;
      } else {
        assert SqlQuote(s) == [s[0]] + q;
        assert ([s[0]] + q)[1..] == q;
      }
      assert s == [s[0]] + s[1..];
    }
  }

  // ---------------------------------------------------------------- match predicates

  /** A row of the handler/owner/operator view; `None` is SQL NULL. Other columns are carried in `other`. */
  datatype Facility = Facility(
    handlerId: string,
    handlerName: Option<string>, ownerNames: Option<string>, operatorNames: Option<string>,
    contactEmailDomain: Option<string>, ownerEmailDomains: Option<string>, operatorEmailDomains: Option<string>,
    other: seq<Option<string>>)

  datatype Flags = Flags(handlerName: bool, ownerName: bool, operatorName: bool, contactEmail: bool, ownerEmail: bool, operatorEmail: bool)

  predicate AnyFlag(f: Flags) {
    f.handlerName || f.ownerName || f.operatorName || f.contactEmail || f.ownerEmail || f.operatorEmail
  }

  /** A word boundary at position `p` of `s`: exactly one side is a word character. */
  predicate EdgeAt(s: string, p: nat, word: char -> bool)
    requires p <= |s|
  {
    (p > 0 && word(s[p - 1])) != (p < |s| && word(s[p]))
  }

  /** `\bt\b` matches in `s` at `i`. */
  predicate BoundedAt(s: string, t: string, i: nat, word: char -> bool) {
    OccursAt(s, t, i) && EdgeAt(s, i, word) && EdgeAt(s, i + |t|, word)
  }

  /**
   * `COALESCE(regexp_matches(UPPER(field), '(pattern)'), false)` for the
   * alternation of `texts`: NULL never matches; the empty group "()" matches
   * every other field; otherwise some text occurs between word boundaries.
   */
  predicate NameHit(field: Option<string>, texts: seq<string>, word: char -> bool) {
    field.Some? &&
    (texts == [] || exists k, i :: 0 <= k < |texts| && 0 <= i <= |field.value| && BoundedAt(Upper(field.value), texts[k], i, word))
  }

  /** `COALESCE(LOWER(field) IN (domains), false)`, or FALSE when there are no domains. */
  predicate EmailHit(field: Option<string>, domains: seq<string>) {
    domains != [] && field.Some? && Lower(field.value) in domains
  }

  function FlagsFor(f: Facility, texts: seq<string>, domains: seq<string>, word: char -> bool): (r: Flags)
    ensures domains == [] ==> !r.contactEmail && !r.ownerEmail && !r.operatorEmail
  {
    Flags(NameHit(f.handlerName, texts, word), NameHit(f.ownerNames, texts, word), NameHit(f.operatorNames, texts, word),
          EmailHit(f.contactEmailDomain, domains), EmailHit(f.ownerEmailDomains, domains), EmailHit(f.operatorEmailDomains, domains))
  }

  /** A row of `account_matched_facilities`. */
  datatype MatchRow = MatchRow(accountId: string, accountName: string, facility: Facility, flags: Flags)

  /** The INSERT ... SELECT of one search: a row for every facility with some flag set, in view order. */
  function Matches(view: seq<Facility>, id: string, name: string, texts: seq<string>, domains: seq<string>, word: char -> bool): (r: seq<MatchRow>)
    ensures forall m :: m in r ==> m.accountId == id && m.accountName == name
  {
    if view == [] then []
    else
      var prev := Matches(view[..|view| - 1], id, name, texts, domains, word);
      var f := view[|view| - 1];
      var flags := FlagsFor(f, texts, domains, word);
      if AnyFlag(flags) then prev + [MatchRow(id, name, f, flags)] else prev
  }

  /**
   * The inserted rows are exactly the facilities with a flag set, each with
   * its own flags, and the email flags are all false without domains.
   */
  lemma {:induction false} MatchesSpec(view: seq<Facility>, id: string, name: string, texts: seq<string>, domains: seq<string>, word: char -> bool)
    ensures var r := Matches(view, id, name, texts, domains, word);
      && (forall m :: m in r ==> m.facility in view && m.flags == FlagsFor(m.facility, texts, domains, word) && AnyFlag(m.flags))
      && (forall f :: f in view && AnyFlag(FlagsFor(f, texts, domains, word)) ==> MatchRow(id, name, f, FlagsFor(f, texts, domains, word)) in r)
  {
    if view != [] {
      var init := view[..|view| - 1];
      MatchesSpec(init, id, name, texts, domains, word);
      assert forall f :: f in view <==> f in init || f == view[|view| - 1];
    }
  }

  /** With no name texts and no domains, every facility with a non-NULL handler name is matched. */
  lemma EmptyNamesMatchAll(view: seq<Facility>, id: string, name: string, word: char -> bool, f: Facility)
    requires f in view && f.handlerName.Some?
    ensures exists m :: m in Matches(view, id, name, [], [], word) && m.facility == f
  {
    MatchesSpec(view, id, name, [], [], word);
    assert MatchRow(id, name, f, FlagsFor(f, [], [], word)) in Matches(view, id, name, [], [], word);
  }

  // ---------------------------------------------------------------- counts

  /** The per-account summary returned by `search`. */
  datatype Summary = Summary(accountId: Option<string>, accountName: string, total: nat,
    handlerName: nat, ownerName: nat, operatorName: nat, contactEmail: nat, ownerEmail: nat, operatorEmail: nat)

  function Count(rows: seq<MatchRow>, p: MatchRow -> bool): (n: nat)
    ensures n <= |rows|
  {
    if rows == [] then 0 else Count(rows[..|rows| - 1], p) + (if p(rows[|rows| - 1]) then 1 else 0)
  }

  lemma {:induction false} CountConcat(a: seq<MatchRow>, b: seq<MatchRow>, p: MatchRow -> bool)
    ensures Count(a + b, p) == Count(a, p) + Count(b, p)
    decreases |b|
  {
    if b == [] {
      assert a + b == a;
    } else {
      var init := b[..|b| - 1];
      CountConcat(a, init, p);
      assert (a + b)[..|a + b| - 1] == a + init;
    }
  }

  /** Counting under a stronger condition gives no more. */
  lemma {:induction false} CountMono(rows: seq<MatchRow>, p: MatchRow -> bool, q: MatchRow -> bool)
    requires forall m :: p(m) ==> q(m)
    ensures Count(rows, p) <= Count(rows, q)
  {
    if rows != [] {
      CountMono(rows[..|rows| - 1], p, q);
    }
  }

  /** Every row satisfies the condition: all are counted. */
  lemma {:induction false} CountAll(rows: seq<MatchRow>, p: MatchRow -> bool)
    requires forall m :: m in rows ==> p(m)
    ensures Count(rows, p) == |rows|
  {
    if rows != [] {
      CountAll(rows[..|rows| - 1], p);
    }
  }

  function Key(id: string, name: string): MatchRow -> bool {
    (m: MatchRow) => m.accountId == id && m.accountName == name
  }

  /** The six flag columns of `account_facility_matches`. */
  datatype Column = HandlerName | OwnerName | OperatorName | ContactEmail | OwnerEmail | OperatorEmail

  function Flag(f: Flags, c: Column): bool {
    match c
    case HandlerName => f.handlerName
    case OwnerName => f.ownerName
    case OperatorName => f.operatorName
    case ContactEmail => f.contactEmail
    case OwnerEmail => f.ownerEmail
    case OperatorEmail => f.operatorEmail
  }

  /** `SUM(CASE WHEN column THEN 1 ELSE 0 END)` over the account's rows. */
  function Flagged(key: MatchRow -> bool, c: Column): MatchRow -> bool {
    (m: MatchRow) => key(m) && Flag(m.flags, c)
  }

  /** `WHERE account_id=? AND account_name=?`, then each flag column. */
  function Summarize(table: seq<MatchRow>, accountId: Option<string>, name: string): Summary {
    var id := AccountProfile.CellText(accountId);
    var key := Key(id, name);
    Summary(accountId, name, Count(table, key),
      Count(table, Flagged(key, HandlerName)), Count(table, Flagged(key, OwnerName)),
      Count(table, Flagged(key, OperatorName)), Count(table, Flagged(key, ContactEmail)),
      Count(table, Flagged(key, OwnerEmail)), Count(table, Flagged(key, OperatorEmail)))
  }

  /** A flag count never exceeds the account's total. */
  lemma FlaggedAtMost(t: seq<MatchRow>, key: MatchRow -> bool, c: Column)
    ensures Count(t, Flagged(key, c)) <= Count(t, key)
  {
    CountMono(t, Flagged(key, c), key);
  }

  // ---------------------------------------------------------------- search and run

  datatype Step = Step(table: seq<MatchRow>, result: Result<Summary>)

  /**
   * `search` on the current table: NaN name terms fail at `split`, a NaN
   * account name at `replace`, both as AttributeError and before any insert.
   */
  function SearchStep(view: seq<Facility>, table: seq<MatchRow>, inp: Input, word: char -> bool): Step {
    if inp.nameTerms.None? || inp.accountName.None? then Step(table, Err(AttributeError))
    else
      var texts := UpperAll(PatternPieces(NameList(inp.nameTerms.value)));
      var rows := Matches(view, AccountProfile.CellText(inp.accountId), inp.accountName.value, texts, EmailList(inp.emailTerms), word);
      var t := table + rows;
      Step(t, Ok(Summarize(t, inp.accountId, inp.accountName.value)))
  }

  /** The ids `_delete_old_records_for_accounts` lists, as text. */
  function BatchIds(batch: seq<Input>): set<string> {
    set i | 0 <= i < |batch| :: AccountProfile.CellText(batch[i].accountId)
  }

  /** The table after `DELETE ... WHERE account_id IN (ids)`, order kept. */
  function Without(table: seq<MatchRow>, ids: set<string>): (r: seq<MatchRow>)
    ensures forall m :: m in r <==> m in table && m.accountId !in ids
  {
    if table == [] then []
    else
      var prev := Without(table[..|table| - 1], ids);
      var m := table[|table| - 1];
      assert forall x :: x in table <==> x in table[..|table| - 1] || x == m;
      if m.accountId in ids then prev else prev + [m]
  }

  datatype RunState = RunState(table: seq<MatchRow>, result: Result<seq<Summary>>)

  /** `search` over the view, as a step from one table to the next. */
  function Searches(view: seq<Facility>, word: char -> bool): (seq<MatchRow>, Input) -> Step {
    (t: seq<MatchRow>, inp: Input) => SearchStep(view, t, inp, word)
  }

  /** The searches of a batch one after the other; the first failure stops the run, keeping what was inserted. */
  function RunSteps(start: seq<MatchRow>, batch: seq<Input>, step: (seq<MatchRow>, Input) -> Step): RunState {
    if batch == [] then RunState(start, Ok([]))
    else
      var s := RunSteps(start, batch[..|batch| - 1], step);
      if s.result.Err? then s
      else
        var st := step(s.table, batch[|batch| - 1]);
        if st.result.Err? then RunState(st.table, Err(st.result.error))
        else RunState(st.table, Ok(s.result.value + [st.result.value]))
  }

  /** `run`: delete the batch's old rows, then search each row of the batch. */
  function RunBatch(view: seq<Facility>, table: seq<MatchRow>, batch: seq<Input>, word: char -> bool): RunState {
    RunSteps(Without(table, BatchIds(batch)), batch, Searches(view, word))
  }

  /** The persisted match table over a fixed view. */
  class Searcher {
    const view: seq<Facility>
    const word: char -> bool
    var table: seq<MatchRow>

    constructor (view: seq<Facility>, table: seq<MatchRow>, word: char -> bool)
      ensures this.view == view && this.table == table && this.word == word
    {
      this.view := view;
      this.table := table;
      this.word := word;
    }

    /** `_delete_old_records_for_accounts`. */
    method DeleteOldRecords(batch: seq<Input>)
      modifies this
      ensures table == Without(old(table), BatchIds(batch))
    {
      var ids := BatchIds(batch);
      if ids != {} {
        table := Without(table, ids);
      } else {
        assert Without(table, ids) == table by { WithoutNone(table, ids); }
      }
    }

    /** `search`: append the matching facilities and count this account's rows. */
    method Search(inp: Input) returns (r: Result<Summary>)
      modifies this
      ensures table == SearchStep(view, old(table), inp, word).table
      ensures r == SearchStep(view, old(table), inp, word).result
    {
      if inp.nameTerms.None? || inp.accountName.None? {
        return Err(AttributeError);
      }
      var nameList := NameList(inp.nameTerms.value);
      var emailList := EmailList(inp.emailTerms);
      var pattern := CreateWordPattern(nameList);
      var texts := UpperAll(PatternPieces(nameList));
      var name := inp.accountName.value;
      var quoted := SqlQuote(name);
      SqlRoundTrip(name);
      var inserted := Matches(view, AccountProfile.CellText(inp.accountId), SqlUnquote(quoted), texts, emailList, word);
      table := table + inserted;
      r := Ok(Summarize(table, inp.accountId, name));
    }

    /** `run`: delete, then search every row in order; an error propagates. */
    method Run(batch: seq<Input>) returns (r: Result<seq<Summary>>)
      modifies this
      ensures table == RunBatch(view, old(table), batch, word).table
      ensures r == RunBatch(view, old(table), batch, word).result
    {
      DeleteOldRecords(batch);
      ghost var start := table;
      var results: seq<Summary> := [];
      for i := 0 to |batch|
        invariant RunSteps(start, batch[..i], Searches(view, word)) == RunState(table, Ok(results))
      {
        assert batch[..i + 1][..i] == batch[..i];
        var res := Search(batch[i]);
        if res.Err? {
          RunErrPersists(start, batch, i + 1, Searches(view, word));
          assert batch[..|batch|] == batch;
          return Err(res.error);
        }
        results := results + [res.value];
      }
      assert batch[..|batch|] == batch;
      return Ok(results);
    }
  }

  lemma {:induction false} WithoutNone(table: seq<MatchRow>, ids: set<string>)
    requires ids == {}
    ensures Without(table, ids) == table
  {
    if table != [] {
      WithoutNone(table[..|table| - 1], ids);
    }
  }

  /** Once a search has failed, the later rows of the batch change nothing. */
  lemma {:induction false} RunErrPersists(start: seq<MatchRow>, batch: seq<Input>, k: nat, step: (seq<MatchRow>, Input) -> Step)
    requires k <= |batch| && RunSteps(start, batch[..k], step).result.Err?
    ensures RunSteps(start, batch, step) == RunSteps(start, batch[..k], step)
    decreases |batch| - k
  {
    if k < |batch| {
      assert batch[..k + 1][..k] == batch[..k];
      RunErrPersists(start, batch, k + 1, step);
    } else {
      assert batch[..k] == batch;
    }
  }

  // ---------------------------------------------------------------- properties of a run

  lemma {:induction false} WithoutConcat(a: seq<MatchRow>, b: seq<MatchRow>, ids: set<string>)
    ensures Without(a + b, ids) == Without(a, ids) + Without(b, ids)
    decreases |b|
  {
    if b == [] {
      assert a + b == a;
    } else {
      var init := b[..|b| - 1];
      var m := b[|b| - 1];
      WithoutConcat(a, init, ids);
      assert (a + b)[..|a + b| - 1] == a + init;
      assert (a + b)[|a + b| - 1] == m;
      var x, y := Without(a, ids), Without(init, ids);
      if m.accountId !in ids {
        assert x + y + [m] == x + (y + [m]);
      }
    }
  }

  lemma {:induction false} WithoutIdempotent(t: seq<MatchRow>, ids: set<string>)
    ensures Without(Without(t, ids), ids) == Without(t, ids)
  {
    if t != [] {
      var init := t[..|t| - 1];
      WithoutIdempotent(init, ids);
      var m := t[|t| - 1];
      if m.accountId !in ids {
        WithoutConcat(Without(init, ids), [m], ids);
        assert Without([m], ids) == [m] by {
          assert [m][..0] == [];
        }
      }
    }
  }

  /** Rows whose ids are all in `ids` vanish entirely. */
  lemma {:induction false} WithoutAllIn(t: seq<MatchRow>, ids: set<string>)
    requires forall m :: m in t ==> m.accountId in ids
    ensures Without(t, ids) == []
  {
    if t != [] {
      WithoutAllIn(t[..|t| - 1], ids);
    }
  }

  /** A search only appends, and only rows of its own account. */
  lemma SearchStepAppends(view: seq<Facility>, table: seq<MatchRow>, inp: Input, word: char -> bool)
    ensures var t := SearchStep(view, table, inp, word).table;
      |table| <= |t| && t[..|table|] == table && forall m :: m in t[|table|..] ==> m.accountId == AccountProfile.CellText(inp.accountId)
  {
    var t := SearchStep(view, table, inp, word).table;
    assert t[..|table|] == table;
  }

  lemma BatchIdsPrefix(batch: seq<Input>)
    requires batch != []
    ensures BatchIds(batch[..|batch| - 1]) <= BatchIds(batch)
    ensures AccountProfile.CellText(batch[|batch| - 1].accountId) in BatchIds(batch)
  {
    var init := batch[..|batch| - 1];
    forall x | x in BatchIds(init) ensures x in BatchIds(batch) {
      var i :| 0 <= i < |init| && x == AccountProfile.CellText(init[i].accountId);
      assert init[i] == batch[i];
    }
  }

  /** A run only appends, and only rows of the batch's accounts, when each step does so for its own account. */
  lemma {:induction false} RunStepsAppends(start: seq<MatchRow>, batch: seq<Input>, step: (seq<MatchRow>, Input) -> Step)
    requires forall t, inp :: var t2 := step(t, inp).table;
      |t| <= |t2| && t2[..|t|] == t && forall m :: m in t2[|t|..] ==> m.accountId == AccountProfile.CellText(inp.accountId)
    ensures var t := RunSteps(start, batch, step).table;
      |start| <= |t| && t[..|start|] == start && forall m :: m in t[|start|..] ==> m.accountId in BatchIds(batch)
  {
    if batch != [] {
      var init := batch[..|batch| - 1];
      RunStepsAppends(start, init, step);
      BatchIdsPrefix(batch);
      var s := RunSteps(start, init, step);
      if s.result.Ok? {
        var inp := batch[|batch| - 1];
        var t := step(s.table, inp).table;
        assert t[|start|..] == s.table[|start|..] + t[|s.table|..];
        assert t[..|start|] == s.table[..|start|];
      }
    }
  }

  /** Rows of accounts outside the batch are the same before and after a run, success or failure, in the same order. */
  lemma RunKeepsOthers(view: seq<Facility>, table: seq<MatchRow>, batch: seq<Input>, word: char -> bool)
    ensures Without(RunBatch(view, table, batch, word).table, BatchIds(batch)) == Without(table, BatchIds(batch))
  {
    var ids := BatchIds(batch);
    var start := Without(table, ids);
    var step := Searches(view, word);
    var t := RunSteps(start, batch, step).table;
    forall t0, inp
      ensures var t2 := step(t0, inp).table;
        |t0| <= |t2| && t2[..|t0|] == t0 && forall m :: m in t2[|t0|..] ==> m.accountId == AccountProfile.CellText(inp.accountId)
    {
      SearchStepAppends(view, t0, inp, word);
    }
    RunStepsAppends(start, batch, step);
    assert t == start + t[|start|..];
    WithoutConcat(start, t[|start|..], ids);
    WithoutAllIn(t[|start|..], ids);
    WithoutIdempotent(table, ids);
    assert Without(start, ids) + [] == Without(start, ids);
  }

  /** Running the same batch again reproduces the same table and the same summaries. */
  lemma RunIdempotent(view: seq<Facility>, table: seq<MatchRow>, batch: seq<Input>, word: char -> bool)
    ensures var once := RunBatch(view, table, batch, word);
      RunBatch(view, once.table, batch, word) == once
  {
    RunKeepsOthers(view, table, batch, word);
  }

  /** Each flag count of a summary is at most its total. */
  predicate WithinTotal(sum: Summary) {
    && sum.handlerName <= sum.total && sum.ownerName <= sum.total && sum.operatorName <= sum.total
    && sum.contactEmail <= sum.total && sum.ownerEmail <= sum.total && sum.operatorEmail <= sum.total
  }

  lemma SummaryBounds(t: seq<MatchRow>, accountId: Option<string>, name: string)
    ensures WithinTotal(Summarize(t, accountId, name))
  {
    var key := Key(AccountProfile.CellText(accountId), name);
    FlaggedAtMost(t, key, HandlerName);
    FlaggedAtMost(t, key, OwnerName);
    FlaggedAtMost(t, key, OperatorName);
    FlaggedAtMost(t, key, ContactEmail);
    FlaggedAtMost(t, key, OwnerEmail);
    FlaggedAtMost(t, key, OperatorEmail);
  }

  /**
   * After a successful search the account's total counts its earlier rows
   * plus every inserted one, and each flag count is at most the total.
   */
  lemma SearchCounts(view: seq<Facility>, table: seq<MatchRow>, inp: Input, word: char -> bool)
    requires SearchStep(view, table, inp, word).result.Ok?
    ensures var st := SearchStep(view, table, inp, word);
      var sum := st.result.value;
      var key := Key(AccountProfile.CellText(inp.accountId), inp.accountName.value);
      && st.table[..|table|] == table
      && sum.total == Count(table, key) + (|st.table| - |table|)
      && WithinTotal(sum)
  {
    var st := SearchStep(view, table, inp, word);
    var key := Key(AccountProfile.CellText(inp.accountId), inp.accountName.value);
    var rows := SearchShape(view, table, inp, word);
    CountConcat(table, rows, key);
    CountAll(rows, key);
    SummaryBounds(st.table, inp.accountId, inp.accountName.value);
  }

  /** A successful search appends rows of its own account and summarises the table so extended. */
  lemma SearchShape(view: seq<Facility>, table: seq<MatchRow>, inp: Input, word: char -> bool) returns (rows: seq<MatchRow>)
    requires SearchStep(view, table, inp, word).result.Ok?
    ensures var st := SearchStep(view, table, inp, word);
      var key := Key(AccountProfile.CellText(inp.accountId), inp.accountName.value);
      && st.table == table + rows
      && st.result.value == Summarize(st.table, inp.accountId, inp.accountName.value)
      && forall m :: m in rows ==> key(m)
  {
    var name := inp.accountName.value;
    var id := AccountProfile.CellText(inp.accountId);
    var texts := UpperAll(PatternPieces(NameList(inp.nameTerms.value)));
    rows := Matches(view, id, name, texts, EmailList(inp.emailTerms), word);
  }

  /**
   * A term row whose name terms are read back as NaN (empty, or a default NA
   * text such as "NA") fails its search; so does one whose account name is
   * NaN or reads back as NaN. Nothing else fails.
   */
  lemma ReadBackFails(view: seq<Facility>, table: seq<MatchRow>, term: AccountProfile.SearchTerm, word: char -> bool)
    ensures SearchStep(view, table, ReadBack(term), word).result.Err? <==>
      term.nameTerms in PandasNa || term.accountName.None? || term.accountName.value in PandasNa
    ensures SearchStep(view, table, ReadBack(term), word).result.Err? ==> SearchStep(view, table, ReadBack(term), word).table == table
  {
  }
}
