/**
 * The Salesforce account-to-domain step: every account row's domain-bearing
 * cells are cut into pieces and reduced to registered domains, generic domains
 * are filtered out, the rows are exploded to one row per (account, domain),
 * e-mails are counted per domain, and the result is joined with the handler
 * table on the contact e-mail's domain.
 */
module SalesforceMatch {
  import opened Wrappers
  import opened Strs

  // ---------------------------------------------------------------- clean_domains

  /** The characters a cell is cut at: `;`, `|` and ` ` are first rewritten to `,`. */
  const PieceSeparators: set<char> := {',', ';', '|', ' '}

  /** The pieces of a cell, computed as written: three replacements, then a split at `,`. */
  function Pieces(cell: string): seq<string> {
    Split(ReplaceAll(ReplaceAll(ReplaceAll(cell, ";", ","), "|", ","), " ", ","), ',')
  }

  /** Replacing one character by another acts character by character. */
  lemma {:induction false} ReplaceCharPointwise(s: string, c: char, d: char)
    ensures |ReplaceChar(s, c, [d])| == |s|
    ensures forall i :: 0 <= i < |s| ==> ReplaceChar(s, c, [d])[i] == if s[i] == c then d else s[i]
  {
    if |s| > 0 {
      ReplaceCharPointwise(s[1..], c, d);
    }
  }

  /** Splitting a character-wise image at `c` is splitting the original at the characters sent to `c`. */
  lemma {:induction false} SplitOnImage(s: string, t: string, seps: set<char>, c: char)
    requires |t| == |s|
    requires forall i :: 0 <= i < |s| ==> (t[i] == c <==> s[i] in seps)
    requires forall i :: 0 <= i < |s| ==> s[i] !in seps ==> t[i] == s[i]
    ensures SplitOn(t, {c}) == SplitOn(s, seps)
    decreases |s|
  {
    var k := IndexOfAny(s, seps);
    var m := IndexOfAny(t, {c});
    if m < |t| {
      assert t[m] == c;
    }
    if k < |s| {
      assert s[k] in seps;
    }
    assert m == k;
    assert t[..k] == s[..k];
    if k < |s| {
      SplitOnImage(s[k + 1..], t[k + 1..], seps, c);
    } else {
      assert t == s;
    }
  }

  /** `clean_domains` treats `;`, `|` and ` ` exactly as `,`. */
  lemma PiecesSplitAtAny(cell: string)
    ensures Pieces(cell) == SplitOn(cell, PieceSeparators)
  {
    var a := ReplaceChar(cell, ';', ",");
    var b := ReplaceChar(a, '|', ",");
    var t := ReplaceChar(b, ' ', ",");
    ReplaceCharPointwise(cell, ';', ',');
    ReplaceCharPointwise(a, '|', ',');
    ReplaceCharPointwise(b, ' ', ',');
    assert Pieces(cell) == SplitOn(t, {','});
    SplitOnImage(cell, t, PieceSeparators, ',');
  }

  /**
   * What is left of a stripped, non-empty piece before the registered-domain lookup:
   * the text after the first `@` when there is one, every `https://` and then every
   * `http://` deleted, cut at the first `/` and then at the first `?`.
   */
  function Host(piece: string): (r: string)
    ensures '/' !in r && '?' !in r
  {
    HostPart(AfterAt(piece))
  }

  /** `piece.split("@", 1)[-1]` when the piece holds an `@`. */
  function AfterAt(piece: string): string {
    if '@' in piece then piece[IndexOf(piece, '@') + 1..] else piece
  }

  /** The scheme deletions and the cuts at `/` and `?`. */
  function HostPart(p: string): (r: string)
    ensures '/' !in r && '?' !in r
  {
    var q := Deschemed(p);
    var h := Split(q, '/')[0];
    SplitFirst(q, '/');
    SplitFirst(h, '?');
    Split(h, '?')[0]
  }

  /** A host name as the cuts leave it: no `/`, `?` or `:`. */
  predicate PlainHost(h: string) {
    forall i :: 0 <= i < |h| ==> h[i] != '/' && h[i] != '?' && h[i] != ':'
  }

  /** What may follow the host: nothing, a path or a query. */
  predicate HostTail(t: string) {
    t == "" || t[0] == '/' || t[0] == '?'
  }

  /**
   * The host of an address or URL: whatever precedes the first `@` is dropped, an
   * `https://` or `http://` scheme is deleted, and the path or query after the host is cut.
   */
  lemma HostOfAddress(local: string, scheme: string, h: string, tail: string)
    requires '@' !in local
    requires scheme == "" || scheme == "http://" || scheme == "https://"
    requires PlainHost(h) && HostTail(tail)
    ensures Host(local + "@" + scheme + h + tail) == h
  {
    var rest := scheme + h + tail;
    assert local + "@" + scheme + h + tail == local + ['@'] + rest;
    AddressShape(local, rest);
    HostOfUrl(scheme, h, tail);
  }

  /** The same for a piece without `@`. */
  lemma HostOfPlainUrl(scheme: string, h: string, tail: string)
    requires '@' !in scheme + h + tail
    requires scheme == "" || scheme == "http://" || scheme == "https://"
    requires PlainHost(h) && HostTail(tail)
    ensures Host(scheme + h + tail) == h
  {
    HostOfUrl(scheme, h, tail);
  }

  lemma HostOfUrl(scheme: string, h: string, tail: string)
    requires scheme == "" || scheme == "http://" || scheme == "https://"
    requires PlainHost(h) && HostTail(tail)
    ensures HostPart(scheme + h + tail) == h
  {
    var t2 := Deschemed(tail);
    SchemesDeleted(scheme, h, tail);
    TailKept(tail, "https://");
    TailKept(ReplaceAll(tail, "https://", ""), "http://");
    HostCuts(h, t2);
  }

  /** Both scheme deletions, in the order the source applies them. */
  function Deschemed(p: string): string {
    ReplaceAll(ReplaceAll(p, "https://", ""), "http://", "")
  }

  /** The scheme in front goes, the host stays, and the deletions act on the tail only. */
  lemma SchemesDeleted(scheme: string, h: string, tail: string)
    requires scheme == "" || scheme == "http://" || scheme == "https://"
    requires PlainHost(h) && HostTail(tail)
    ensures Deschemed(scheme + h + tail) == h + Deschemed(tail)
  {
    var p := scheme + h + tail;
    if scheme == "https://" {
      assert p == "https://" + h + tail;
      HttpsCase(h, tail);
    } else if scheme == "http://" {
      assert p == "http://" + h + tail;
      HttpCase(h, tail);
    } else {
      assert p == h + tail;
      HostDeschemed(h, tail);
    }
  }

  lemma HttpsCase(h: string, tail: string)
    requires PlainHost(h) && HostTail(tail)
    ensures Deschemed("https://" + h + tail) == h + Deschemed(tail)
  {
    var b := h + tail;
    assert "https://" + h + tail == "https://" + b;
    HttpsDeleted(b);
    HostDeschemed(h, tail);
  }

  lemma HttpCase(h: string, tail: string)
    requires PlainHost(h) && HostTail(tail)
    ensures Deschemed("http://" + h + tail) == h + Deschemed(tail)
  {
    var b := h + tail;
    assert "http://" + h + tail == "http://" + b;
    HostDeschemed(h, tail);
    HttpDeleted(b, ReplaceAll(b, "https://", ""));
  }

  /** Without a scheme in front, the deletions skip the host. */
  lemma HostDeschemed(h: string, tail: string)
    requires PlainHost(h) && HostTail(tail)
    ensures ReplaceAll(h + tail, "https://", "") == h + ReplaceAll(tail, "https://", "")
    ensures Deschemed(h + tail) == h + Deschemed(tail)
  {
    var t1 := ReplaceAll(tail, "https://", "");
    TailKept(tail, "https://");
    NoSchemeInHost(h, tail, "https://");
    NoSchemeInHost(h, t1, "http://");
    ReplaceAllSkip(h, tail, "https://", "");
    ReplaceAllSkip(h, t1, "http://", "");
  }

  lemma HttpsDeleted(b: string)
    ensures ReplaceAll("https://" + b, "https://", "") == ReplaceAll(b, "https://", "")
  {
    ReplaceAllFront("https://", b, "");
  }

  lemma HttpDeleted(b: string, b1: string)
    requires b1 == ReplaceAll(b, "https://", "")
    ensures Deschemed("http://" + b) == ReplaceAll(b1, "http://", "")
  {
    HttpNotHttps(b);
    ReplaceAllSkip("http://", b, "https://", "");
    ReplaceAllFront("http://", b1, "");
  }

  /** Deleting a scheme leaves a tail a tail. */
  lemma TailKept(t: string, pat: string)
    requires HostTail(t) && |pat| > 0 && pat[0] == 'h'
    ensures HostTail(ReplaceAll(t, pat, ""))
  {
    if t != "" {
      ReplaceAllHead(t, pat, "");
    }
  }

  /** No scheme starts inside a plain host followed by a tail. */
  lemma NoSchemeInHost(h: string, t: string, pat: string)
    requires pat == "http://" || pat == "https://"
    requires PlainHost(h) && HostTail(t)
    ensures NoMatchIn(h, t, pat)
  {
    var s := h + t;
    var c := if pat == "http://" then 4 else 5;
    assert pat[c] == ':';
    assert forall m :: 1 <= m <= c ==> pat[m] != '/' && pat[m] != '?';
    forall j | 0 <= j < |h| ensures !HasPrefix(s[j..], pat) {
      if j + |pat| <= |s| {
        var w := s[j..][..|pat|];
        if j + c < |h| {
          assert w[c] == h[j + c] && h[j + c] != ':';
        } else {
          var m := |h| - j;
          assert 1 <= m <= c;
          assert w[m] == t[0];
        }
        assert w != pat;
      }
    }
  }

  /** `http://` opens no `https://`. */
  lemma HttpNotHttps(b: string)
    ensures NoMatchIn("http://", b, "https://")
  {
    var s := "http://" + b;
    forall j | 0 <= j < 7 ensures !HasPrefix(s[j..], "https://") {
      if j + 8 <= |s| {
        var w := s[j..][..8];
        if j == 0 {
          assert w[4] == ':';
        } else {
          assert w[0] == "http://"[j];
        }
        assert w != "https://";
      }
    }
  }

  /** The cut at the first `/` and then at the first `?` leaves the host. */
  lemma HostCuts(h: string, t: string)
    requires PlainHost(h) && HostTail(t)
    ensures Split(Split(h + t, '/')[0], '?')[0] == h
  {
    assert '/' !in h && '?' !in h by {
      assert forall i :: 0 <= i < |h| ==> h[i] != '/' && h[i] != '?';
    }
    if t == "" || t[0] == '/' {
      FirstPiece(h, t, '/');
      FirstPiece(h, "", '?');
      assert h + "" == h;
    } else {
      var s := h + t;
      SplitFirst(s, '/');
      var k := IndexOf(s, '/');
      assert forall i :: 0 <= i < |h| ==> s[i] == h[i];
      assert s[|h|] == '?';
      assert k > |h|;
      var piece := s[..k];
      var u := piece[|h|..];
      assert piece == h + u;
      assert u[0] == '?';
      FirstPiece(h, u, '?');
    }
  }

  /** A piece's contribution: none when it strips to "" or has no registered domain, else that domain lower-cased. */
  function PieceDomain(piece: string, registered: string -> string): Option<string> {
    var p := PyStrip(piece);
    if p == "" then None
    else
      var rd := registered(Host(p));
      if rd == "" then None else Some(Lower(rd))
  }

  /** The domains of a list of pieces, in piece order, for a per-piece reduction `domainOf`. */
  function DomainsOf(pieces: seq<string>, domainOf: string -> Option<string>): seq<string> {
    if |pieces| == 0 then []
    else
      var n := |pieces| - 1;
      var pd := domainOf(pieces[n]);
      DomainsOf(pieces[..n], domainOf) + (if pd.Some? then [pd.value] else [])
  }

  /** The cleaned domains of one cell. */
  function CellDomains(cell: string, registered: string -> string): seq<string> {
    DomainsOf(Pieces(cell), PieceDomains(registered))
  }

  function PieceDomains(registered: string -> string): string -> Option<string> {
    p => PieceDomain(p, registered)
  }

  /** `clean_domains`: the loop over the pieces of a cell, with the registered-domain lookup as a parameter. */
  method CleanDomains(cell: string, registered: string -> string) returns (out: seq<string>)
    ensures out == CellDomains(cell, registered)
  {
    var pieces := Pieces(cell);
    ghost var domainOf := PieceDomains(registered);
    out := [];
    for i := 0 to |pieces|
      invariant out == DomainsOf(pieces[..i], domainOf)
    {
      assert pieces[..i + 1][..i] == pieces[..i];
      assert domainOf(pieces[i]) == PieceDomain(pieces[i], registered);
      var piece := PyStrip(pieces[i]);
      if piece == "" {
        continue;
      }
      var rd := registered(Host(piece));
      if rd != "" {
        out := out + [Lower(rd)];
      }
    }
    assert pieces[..|pieces|] == pieces;
  }

  lemma LowerIdempotent(s: string)
    ensures Lower(Lower(s)) == Lower(s)
  {
    assert forall i :: 0 <= i < |s| ==> LowerChar(LowerChar(s[i])) == LowerChar(s[i]);
  }

  /**
   * Each cleaned domain comes from one piece of the cell, cut at any of `,;| `, and
   * every piece with a registered domain contributes it.
   */
  lemma {:induction false} DomainsFromPieces(pieces: seq<string>, domainOf: string -> Option<string>)
    ensures forall d :: d in DomainsOf(pieces, domainOf) <==> exists i :: 0 <= i < |pieces| && domainOf(pieces[i]) == Some(d)
  {
    if |pieces| > 0 {
      var n := |pieces| - 1;
      DomainsFromPieces(pieces[..n], domainOf);
      assert forall i :: 0 <= i < n ==> pieces[..n][i] == pieces[i];
    }
  }

  /** Each cleaned domain of a cell is the domain of one of its pieces, cut at any of `,;| `, and each such domain is kept. */
  lemma CellDomainsFromPieces(cell: string, registered: string -> string)
    ensures forall d :: d in CellDomains(cell, registered) <==>
      exists i :: 0 <= i < |SplitOn(cell, PieceSeparators)| && PieceDomain(SplitOn(cell, PieceSeparators)[i], registered) == Some(d)
  {
    PiecesSplitAtAny(cell);
    DomainsFromPieces(Pieces(cell), PieceDomains(registered));
  }

  /** A piece's domain is non-empty and already lower-case. */
  lemma PieceDomainLower(piece: string, registered: string -> string)
    ensures PieceDomain(piece, registered).Some? ==> var d := PieceDomain(piece, registered).value; d != "" && Lower(d) == d
  {
    var p := PyStrip(piece);
    if p != "" {
      LowerIdempotent(registered(Host(p)));
    }
  }

  // ---------------------------------------------------------------- generic domains

  /** The generic-domain set: every line stripped and lower-cased, or empty when the file is absent. */
  function BadDomains(file: Option<seq<string>>): (r: set<string>)
    ensures file.None? ==> r == {}
    ensures file.Some? ==> forall x :: x in r <==> exists line :: line in file.value && x == Lower(PyStrip(line))
  {
    match file
    case None => {}
    case Some(lines) => set line | line in lines :: Lower(PyStrip(line))
  }

  /** The columns read for domains, in order; `Email` is one of them. */
  const DomainColumns: seq<string> := [
    "Website", "FRS Domain", "Domain for Salesloft", "Extra Domains",
    "Other Domains (ZoomInfo)", "SalesLoft Domain", "Email"
  ]

  /** The account columns kept under their new names, in order. */
  const AccountColumns: seq<string> := [
    "Account ID18", "Account Name", "Account Status (Formulaic)", "RY2025 Account Tier",
    "Parent Account ID", "Parent Account", "RY2025 Highest Tier", "Account Owner",
    "BDA Owner", "CS Owner"
  ]

  /** A missing cell reads as "" (`fillna("")`). */
  function Cell(row: map<string, string>, col: string): string {
    if col in row then row[col] else ""
  }

  /** A row's domains: the cleaned domains of each domain column, concatenated, generic ones removed. */
  function RowDomains(row: map<string, string>, registered: string -> string, bad: set<string>): seq<string> {
    var all := Flatten(seq(|DomainColumns|, k requires 0 <= k < |DomainColumns| => CellDomains(Cell(row, DomainColumns[k]), registered)));
    Keep(all, bad)
  }

  /** The elements not in `bad`, in order. */
  function Keep(xs: seq<string>, bad: set<string>): (r: seq<string>)
    ensures forall x :: x in r <==> x in xs && x !in bad
  {
    if |xs| == 0 then [] else (if xs[0] in bad then [] else [xs[0]]) + Keep(xs[1..], bad)
  }

  // ---------------------------------------------------------------- explode and count

  /** One row per (account, domain); `domain` is null for an account row with no domain left. */
  datatype DomainRow = DomainRow(account: seq<string>, domain: Option<string>, email: string, emailDomain: string)

  /** The account row's domain-matching e-mail domain: "" without an `@`, else the stripped lower-cased text after the first `@`. */
  function ExtractEmailDomain(email: string): (r: string)
    ensures '@' !in email ==> r == ""
  {
    if email == "" || '@' !in email then "" else PyStrip(Lower(email[IndexOf(email, '@') + 1..]))
  }

  /** The domain of `local@domain` is `domain` lower-cased and stripped, whatever `domain` holds. */
  lemma EmailDomainOfAddress(local: string, domain: string)
    requires '@' !in local
    ensures ExtractEmailDomain(local + ['@'] + domain) == PyStrip(Lower(domain))
  {
    AddressShape(local, domain);
    assert (local + ['@'] + domain)[|local|] == '@';
  }

  /** In `local@domain` the first `@` is the one after the local part. */
  lemma AddressShape(local: string, domain: string)
    requires '@' !in local
    ensures IndexOf(local + ['@'] + domain, '@') == |local|
    ensures (local + ['@'] + domain)[|local| + 1..] == domain
  {
    var rest := ['@'] + domain;
    PrefixIndexOf(local, rest, '@');
    assert local + ['@'] + domain == local + rest;
  }

  /** `explode`: each domain of the row, or one null-domain row when there is none. */
  function Explode(account: seq<string>, email: string, domains: seq<string>): (r: seq<DomainRow>)
    ensures |domains| == 0 ==> r == [DomainRow(account, None, email, ExtractEmailDomain(email))]
    ensures |domains| > 0 ==> |r| == |domains| && forall i :: 0 <= i < |r| ==> r[i] == DomainRow(account, Some(domains[i]), email, ExtractEmailDomain(email))
  {
    if |domains| == 0 then [DomainRow(account, None, email, ExtractEmailDomain(email))]
    else seq(|domains|, i requires 0 <= i < |domains| => DomainRow(account, Some(domains[i]), email, ExtractEmailDomain(email)))
  }

  /** A null domain survives the `domain != ''` filter, and cleaned domains are never "", so the filter drops nothing. */
  function DropBlank(rows: seq<DomainRow>): (r: seq<DomainRow>)
    ensures (forall i :: 0 <= i < |rows| ==> rows[i].domain != Some("")) ==> r == rows
  {
    if |rows| == 0 then [] else (if rows[0].domain == Some("") then [] else [rows[0]]) + DropBlank(rows[1..])
  }

  /** An account table with every kept and domain column present. */
  predicate HasColumns(columns: set<string>) {
    (forall k :: 0 <= k < |AccountColumns| ==> AccountColumns[k] in columns)
    && (forall k :: 0 <= k < |DomainColumns| ==> DomainColumns[k] in columns)
  }

  /** The exploded account-domain rows, or the `KeyError` of a missing column. */
  function AccountDomainRows(columns: set<string>, rows: seq<map<string, string>>, registered: string -> string, bad: set<string>): (r: Result<seq<DomainRow>>)
    ensures r.Err? <==> !HasColumns(columns)
  {
    if !HasColumns(columns) then Err("KeyError")
    else Ok(DropBlank(Flatten(seq(|rows|, i requires 0 <= i < |rows| =>
      Explode(seq(|AccountColumns|, k requires 0 <= k < |AccountColumns| => Cell(rows[i], AccountColumns[k])),
              Cell(rows[i], "Email"), RowDomains(rows[i], registered, bad))))))
  }

  /** The exploded rows keep a domain-less account as one row with a null domain. */
  lemma DomainlessAccountKept(account: seq<string>, email: string)
    ensures DropBlank(Explode(account, email, [])) == [DomainRow(account, None, email, ExtractEmailDomain(email))]
  {
  }

  /** `count_matching_emails`: the distinct non-empty e-mails of a group whose domain is the group's domain. */
  function CountMatchingEmails(group: seq<DomainRow>, domain: Option<string>): nat {
    |set r | r in group && r.email != "" && domain == Some(r.emailDomain) :: r.email|
  }

  /** A null-domain group counts nothing, and no group counts more e-mails than it has rows. */
  lemma CountBounds(group: seq<DomainRow>, domain: Option<string>)
    ensures CountMatchingEmails(group, domain) <= |group|
    ensures domain.None? ==> CountMatchingEmails(group, domain) == 0
  {
    var rows := set r | r in group && r.email != "" && domain == Some(r.emailDomain);
    assert (set r | r in group && r.email != "" && domain == Some(r.emailDomain) :: r.email) == (set r | r in rows :: r.email);
    ImageCard(rows);
    ElementsCard(group);
    assert rows <= (set r | r in group);
    SubsetCard(rows, set r | r in group);
  }

  lemma {:induction false} ImageCard(rows: set<DomainRow>)
    ensures |set r | r in rows :: r.email| <= |rows|
    decreases |rows|
  {
    if rows != {} {
      var j :| j in rows;
      var rest := rows - {j};
      ImageCard(rest);
      assert (set r | r in rows :: r.email) == (set r | r in rest :: r.email) + {j.email};
    }
  }

  lemma {:induction false} ElementsCard(s: seq<DomainRow>)
    ensures |set r | r in s| <= |s|
  {
    if |s| > 0 {
      var n := |s| - 1;
      ElementsCard(s[..n]);
      assert (set r | r in s) == (set r | r in s[..n]) + {s[n]};
    }
  }

  lemma SubsetCard(a: set<DomainRow>, b: set<DomainRow>)
    requires a <= b
    ensures |a| <= |b|
  {
    assert b == a + (b - a);
  }

  /** The rows sharing an (account, domain) key. */
  function Group(rows: seq<DomainRow>, account: seq<string>, domain: Option<string>): seq<DomainRow> {
    if |rows| == 0 then []
    else (if rows[0].account == account && rows[0].domain == domain then [rows[0]] else []) + Group(rows[1..], account, domain)
  }

  /** `groupby(... + ["domain"], dropna=False).apply(count_matching_emails)`: one count per (account, domain) key, null keys kept. */
  function Grouped(rows: seq<DomainRow>): (r: map<(seq<string>, Option<string>), nat>)
    ensures forall i :: 0 <= i < |rows| ==> (rows[i].account, rows[i].domain) in r
    ensures forall k :: k in r ==> exists i :: 0 <= i < |rows| && (rows[i].account, rows[i].domain) == k
  {
    map k | k in (set i | 0 <= i < |rows| :: (rows[i].account, rows[i].domain)) :: CountMatchingEmails(Group(rows, k.0, k.1), k.1)
  }

  // ---------------------------------------------------------------- the facility join

  /** The handler columns the join reads. */
  datatype Handler = Handler(contactEmail: Option<string>, currentRecord: Option<string>)

  /** An account-domain row as read back from the CSV: the null domain reads as NULL. */
  datatype AccountDomain = AccountDomain(account: seq<string>, domain: Option<string>, distinctEmails: nat)

  /** SQL `split_part(s, '@', 2)`: the second `@`-separated field, or "" when there is none. */
  function SplitPart2(s: string): string {
    var parts := Split(s, '@');
    if |parts| >= 2 then parts[1] else ""
  }

  /** The join condition: a current handler whose contact e-mail's second `@` field equals the domain, ignoring case. */
  predicate Joins(a: AccountDomain, h: Handler) {
    a.domain.Some? && h.contactEmail.Some? && h.currentRecord == Some("Y")
    && Lower(a.domain.value) == Lower(SplitPart2(h.contactEmail.value))
  }

  function JoinRow(a: AccountDomain, handlers: seq<Handler>): seq<(AccountDomain, Handler)> {
    if |handlers| == 0 then []
    else (if Joins(a, handlers[0]) then [(a, handlers[0])] else []) + JoinRow(a, handlers[1..])
  }

  /** `CREATE OR REPLACE TABLE account_matched_facilities`: the whole table is the join, whatever it held before. */
  function MatchedFacilities(accounts: seq<AccountDomain>, handlers: seq<Handler>): seq<(AccountDomain, Handler)> {
    Flatten(seq(|accounts|, i requires 0 <= i < |accounts| => JoinRow(accounts[i], handlers)))
  }

  lemma {:induction false} JoinRowMembers(a: AccountDomain, handlers: seq<Handler>)
    ensures forall p :: p in JoinRow(a, handlers) <==> p.0 == a && p.1 in handlers && Joins(a, p.1)
  {
    if |handlers| > 0 {
      JoinRowMembers(a, handlers[1..]);
    }
  }

  /** A pair is in the match table exactly when it satisfies the join condition; null domains never match. */
  lemma MatchedFacilitiesExactly(accounts: seq<AccountDomain>, handlers: seq<Handler>)
    ensures forall a, h :: (a, h) in MatchedFacilities(accounts, handlers) <==> a in accounts && h in handlers && Joins(a, h)
    ensures forall p :: p in MatchedFacilities(accounts, handlers) ==> p.0.domain.Some?
  {
    var rows := seq(|accounts|, i requires 0 <= i < |accounts| => JoinRow(accounts[i], handlers));
    FlattenMembers(rows);
    forall i | 0 <= i < |accounts| {
      JoinRowMembers(accounts[i], handlers);
    }
    forall a, h | a in accounts && h in handlers && Joins(a, h) ensures (a, h) in MatchedFacilities(accounts, handlers) {
      var i :| 0 <= i < |accounts| && accounts[i] == a;
      assert (a, h) in rows[i];
    }
  }
}
