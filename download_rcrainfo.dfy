/**
 * The deterministic parts of the RCRAInfo download and load step: the
 * column-name normaliser `to_snake_case`, the SQL text that stacks a folder of
 * CSV files into one table with renamed columns, and the dataset-key guard that
 * opens the ETL run.
 */
module RcraDownload {
  import opened Wrappers
  import opened Strs

  // ---------------------------------------------------------------- to_snake_case

  /** The characters `[a-z0-9]` that survive normalisation. */
  predicate IsSnakeChar(c: char) {
    'a' <= c <= 'z' || '0' <= c <= '9'
  }

  /** Every character is `[a-z0-9]` or `_`. */
  predicate SnakeAlphabet(s: string) {
    forall i :: 0 <= i < |s| ==> IsSnakeChar(s[i]) || s[i] == '_'
  }

  /** No two adjacent underscores. */
  predicate NoDoubleUnderscore(s: string) {
    forall i :: 0 <= i < |s| - 1 ==> !(s[i] == '_' && s[i + 1] == '_')
  }

  /** What `to_snake_case` promises of its result. */
  predicate IsSnake(s: string) {
    SnakeAlphabet(s) && NoDoubleUnderscore(s)
    && (|s| > 0 ==> s[0] != '_' && s[|s| - 1] != '_')
  }

  /** Drop the leading run of characters outside `[a-z0-9]`. */
  function DropRun(s: string): (r: string)
    ensures |r| <= |s|
    ensures |r| > 0 ==> IsSnakeChar(r[0])
  {
    if |s| > 0 && !IsSnakeChar(s[0]) then DropRun(s[1..]) else s
  }

  /** `re.sub(r'[^a-z0-9]+', '_', s)`: each maximal run outside `[a-z0-9]` becomes one `_`. */
  function RunsToUnderscore(s: string): (r: string)
    ensures SnakeAlphabet(r) && NoDoubleUnderscore(r)
    ensures |r| > 0 ==> |s| > 0 && (r[0] == '_' <==> !IsSnakeChar(s[0]))
    decreases |s|
  {
    if |s| == 0 then ""
    else if IsSnakeChar(s[0]) then [s[0]] + RunsToUnderscore(s[1..])
    else
      var rest := DropRun(s[1..]);
      var t := RunsToUnderscore(rest);
      assert |t| > 0 ==> t[0] != '_';
      "_" + t
  }

  /** `re.sub(r'_+', '_', s)`: each run of underscores becomes one. */
  function CollapseUnderscores(s: string): (r: string)
    decreases |s|
  {
    if |s| == 0 then ""
    else if |s| > 1 && s[0] == '_' && s[1] == '_' then CollapseUnderscores(s[1..])
    else [s[0]] + CollapseUnderscores(s[1..])
  }

  /** `to_snake_case`: lower-case, runs outside `[a-z0-9]` to `_`, strip `_`, collapse `_` runs. */
  function ToSnakeCase(name: string): string {
    CollapseUnderscores(Trim(RunsToUnderscore(Lower(name)), {'_'}))
  }

  /** Trimming `_` keeps the alphabet and the absence of `__`. */
  lemma TrimKeepsSnake(s: string)
    requires SnakeAlphabet(s) && NoDoubleUnderscore(s)
    ensures IsSnake(Trim(s, {'_'}))
  {
    var r := Trim(s, {'_'});
    var lo := TrimSlice(s, {'_'});
    SliceKeepsSnake(s, lo, lo + |r|, r);
  }

  /** What is left after trimming is a slice of the text. */
  lemma TrimSlice(s: string, cs: set<char>) returns (lo: nat)
    ensures lo + |Trim(s, cs)| <= |s| && Trim(s, cs) == s[lo..lo + |Trim(s, cs)|]
  {
    var l := TrimLeft(s, cs);
    var r := TrimRight(l, cs);
    lo := |s| - |l|;
    assert r == s[lo..lo + |r|];
  }

  /** A slice of a text in the snake alphabet without `__` is one too. */
  lemma SliceKeepsSnake(s: string, lo: nat, hi: nat, r: string)
    requires lo <= hi <= |s| && r == s[lo..hi] && SnakeAlphabet(s) && NoDoubleUnderscore(s)
    ensures SnakeAlphabet(r) && NoDoubleUnderscore(r)
  {
    forall i | 0 <= i < |r| ensures IsSnakeChar(r[i]) || r[i] == '_' {
      assert r[i] == s[lo + i];
    }
    forall i | 0 <= i < |r| - 1 ensures !(r[i] == '_' && r[i + 1] == '_') {
      assert r[i] == s[lo + i] && r[i + 1] == s[lo + i + 1];
    }
  }

  /** Without `__` collapsing changes nothing, so the last step of `to_snake_case` is a no-op. */
  lemma {:induction false} CollapseNoop(s: string)
    requires NoDoubleUnderscore(s)
    ensures CollapseUnderscores(s) == s
    decreases |s|
  {
    if |s| > 0 {
      assert NoDoubleUnderscore(s[1..]) by {
        forall i | 0 <= i < |s[1..]| - 1 ensures !(s[1..][i] == '_' && s[1..][i + 1] == '_') {
          assert s[1..][i] == s[i + 1] && s[1..][i + 1] == s[i + 2];
        }
      }
      CollapseNoop(s[1..]);
    }
  }

  /** The output uses only `[a-z0-9_]`, neither starts nor ends with `_`, and holds no `__`. */
  lemma SnakeShape(name: string)
    ensures IsSnake(ToSnakeCase(name))
    ensures ToSnakeCase(name) == Trim(RunsToUnderscore(Lower(name)), {'_'})
  {
    var t := Trim(RunsToUnderscore(Lower(name)), {'_'});
    TrimKeepsSnake(RunsToUnderscore(Lower(name)));
    CollapseNoop(t);
  }

  /** A name already in snake form comes out of every step unchanged. */
  lemma {:induction false} RunsFixSnake(s: string)
    requires SnakeAlphabet(s) && NoDoubleUnderscore(s)
    requires |s| > 0 ==> s[|s| - 1] != '_'
    ensures RunsToUnderscore(s) == s
    decreases |s|
  {
    if |s| > 0 {
      var t := s[1..];
      assert SnakeAlphabet(t) && NoDoubleUnderscore(t) by {
        forall i | 0 <= i < |t| - 1 ensures !(t[i] == '_' && t[i + 1] == '_') {
          assert t[i] == s[i + 1] && t[i + 1] == s[i + 2];
        }
      }
      if !IsSnakeChar(s[0]) {
        assert s[0] == '_' && |s| > 1 && s[1] != '_';
        assert IsSnakeChar(t[0]);
        assert DropRun(t) == t;
      }
      RunsFixSnake(t);
    }
  }

  lemma {:induction false} LowerFixSnake(s: string)
    requires SnakeAlphabet(s)
    ensures Lower(s) == s
  {
    assert forall i :: 0 <= i < |s| ==> LowerChar(s[i]) == s[i];
  }

  /** `to_snake_case` is idempotent. */
  lemma SnakeIdempotent(name: string)
    ensures ToSnakeCase(ToSnakeCase(name)) == ToSnakeCase(name)
  {
    var s := ToSnakeCase(name);
    SnakeShape(name);
    LowerFixSnake(s);
    RunsFixSnake(s);
    TrimFixesSnake(s);
    CollapseNoop(s);
  }

  /** Input with no ASCII letter or digit normalises to "". */
  lemma {:induction false} NoAlnumIsEmpty(name: string)
    requires forall i :: 0 <= i < |name| ==> !IsSnakeChar(LowerChar(name[i]))
    ensures ToSnakeCase(name) == ""
  {
    var l := Lower(name);
    if |l| > 0 {
      DropAll(l[1..]);
      assert RunsToUnderscore(l) == "_";
      assert TrimLeft("_", {'_'}) == TrimLeft("", {'_'});
    }
  }

  lemma {:induction false} DropAll(s: string)
    requires forall i :: 0 <= i < |s| ==> !IsSnakeChar(s[i])
    ensures DropRun(s) == ""
  {
    if |s| > 0 {
      DropAll(s[1..]);
    }
  }

  /** Two words joined by a space become `word_word`, as `"Handler ID"` becomes `"handler_id"`. */
  lemma TwoWords(a: string, b: string)
    requires |a| > 0 && |b| > 0
    requires forall i :: 0 <= i < |a| ==> IsSnakeChar(LowerChar(a[i]))
    requires forall i :: 0 <= i < |b| ==> IsSnakeChar(LowerChar(b[i]))
    ensures ToSnakeCase(a + " " + b) == Lower(a) + "_" + Lower(b)
  {
    var la, lb := Lower(a), Lower(b);
    var s := la + "_" + lb;
    LowerConcat(a, " " + b);
    LowerConcat(" ", b);
    var l := Lower(a + " " + b);
    assert l == la + " " + lb;
    assert forall i :: 0 <= i < |la| ==> IsSnakeChar(la[i]);
    assert forall i :: 0 <= i < |lb| ==> IsSnakeChar(lb[i]);
    JoinedIsSnake(la, lb);
    RunsAtSpace(la, lb);
    RunsFixSnake(s);
    var t := RunsToUnderscore(l);
    assert t == s;
    TrimFixesSnake(s);
    CollapseNoop(s);
  }

  lemma TrimFixesSnake(s: string)
    requires IsSnake(s)
    ensures Trim(s, {'_'}) == s
  {
    assert TrimLeft(s, {'_'}) == s;
    assert TrimRight(s, {'_'}) == s;
  }

  lemma LowerConcat(a: string, b: string)
    ensures Lower(a + b) == Lower(a) + Lower(b)
  {
  }

  lemma JoinedIsSnake(a: string, b: string)
    requires |a| > 0 && |b| > 0
    requires forall i :: 0 <= i < |a| ==> IsSnakeChar(a[i])
    requires forall i :: 0 <= i < |b| ==> IsSnakeChar(b[i])
    ensures IsSnake(a + "_" + b)
  {
    var s := a + "_" + b;
    forall i | 0 <= i < |s| ensures IsSnakeChar(s[i]) || s[i] == '_' {
      if i < |a| { assert s[i] == a[i]; } else if i > |a| { assert s[i] == b[i - |a| - 1]; }
    }
    forall i | 0 <= i < |s| - 1 ensures !(s[i] == '_' && s[i + 1] == '_') {
      if i < |a| { assert s[i] == a[i]; } else { assert s[i + 1] == b[i - |a|]; }
    }
  }

  /** A space between two snake-alphabet words becomes one `_`. */
  lemma {:induction false} RunsAtSpace(a: string, b: string)
    requires |b| > 0 && IsSnakeChar(b[0])
    requires forall i :: 0 <= i < |a| ==> IsSnakeChar(a[i])
    ensures RunsToUnderscore(a + " " + b) == RunsToUnderscore(a + "_" + b)
    decreases |a|
  {
    if |a| == 0 {
      assert DropRun(b) == b;
      assert ("_" + b)[0] == '_' && ("_" + b)[1..] == b && (" " + b)[1..] == b;
    } else {
      assert (a + " " + b)[1..] == a[1..] + " " + b;
      assert (a + "_" + b)[1..] == a[1..] + "_" + b;
      RunsAtSpace(a[1..], b);
    }
  }

  // ---------------------------------------------------------------- process_data_folder

  /** One `"orig" as snake` entry per original column, in order. */
  function ColumnRenames(columns: seq<string>): (r: seq<string>)
    ensures |r| == |columns|
    ensures forall i :: 0 <= i < |r| ==> HasPrefix(r[i], "\"" + columns[i] + "\"")
    ensures forall i :: 0 <= i < |r| ==> HasSuffix(r[i], " as " + ToSnakeCase(columns[i])) && IsSnake(ToSnakeCase(columns[i]))
    ensures forall i :: 0 <= i < |r| ==> |r[i]| == |columns[i]| + |ToSnakeCase(columns[i])| + 6
  {
    var r := seq(|columns|, i requires 0 <= i < |columns| => "\"" + columns[i] + "\" as " + ToSnakeCase(columns[i]));
    forall i | 0 <= i < |r|
      ensures HasPrefix(r[i], "\"" + columns[i] + "\"")
      ensures HasSuffix(r[i], " as " + ToSnakeCase(columns[i])) && IsSnake(ToSnakeCase(columns[i]))
    {
      SnakeShape(columns[i]);
      assert r[i] == ("\"" + columns[i] + "\"") + (" as " + ToSnakeCase(columns[i]));
    }
    r
  }

  /**
   * A rename entry reads back: for a column name without `"`, the quoted identifier
   * that opens the entry is the original column and what follows ` as ` its snake form.
   */
  lemma RenameReadsBack(columns: seq<string>, i: nat)
    requires i < |columns| && '"' !in columns[i]
    ensures var e := ColumnRenames(columns)[i];
      var close := 1 + IndexOf(e[1..], '"');
      close < |e| && e[1..close] == columns[i] && e[close + 5..] == ToSnakeCase(columns[i])
  {
    EntryParts(columns[i], ToSnakeCase(columns[i]));
  }

  lemma EntryParts(c: string, snake: string)
    requires '"' !in c
    ensures var e := "\"" + c + "\" as " + snake;
      var close := 1 + IndexOf(e[1..], '"');
      close < |e| && e[1..close] == c && e[close + 5..] == snake
  {
    var tail := "\" as " + snake;
    var e := "\"" + c + tail;
    assert "\"" + c + "\" as " + snake == e;
    assert e[1..] == c + tail;
    PrefixIndexOf(c, tail, '"');
    assert IndexOf(e[1..], '"') == |c|;
    assert e[1..1 + |c|] == c;
    assert tail[5..] == snake;
    assert e[|c| + 6..] == tail[5..];
  }

  function SelectClause(columns: seq<string>): string {
    Join(ColumnRenames(columns), ", ")
  }

  /** One `SELECT` over each CSV file, all with the same select clause. */
  function UnionParts(columns: seq<string>, files: seq<string>): (r: seq<string>)
    ensures |r| == |files|
    ensures forall i :: 0 <= i < |r| ==> HasPrefix(r[i], "SELECT " + SelectClause(columns) + " FROM ")
  {
    seq(|files|, i requires 0 <= i < |files| =>
      "SELECT " + SelectClause(columns) + " FROM read_csv_auto('" + files[i] + "', header=True, ALL_VARCHAR=TRUE)")
  }

  /**
   * The statements `process_data_folder` sends: the old table is always dropped; with
   * no CSV file nothing else happens, otherwise one `CREATE TABLE` over the union of
   * every file, with the columns of the first file renamed.
   */
  function FolderStatements(table: string, files: seq<string>, columns: seq<string>): (r: seq<string>)
    ensures |r| >= 1 && r[0] == "DROP TABLE IF EXISTS " + table
    ensures |r| == 1 <==> |files| == 0
    ensures |files| > 0 ==> r == [r[0], "CREATE TABLE " + table + " AS " + Join(UnionParts(columns, files), " UNION ALL ") + ";"]
  {
    var drop := "DROP TABLE IF EXISTS " + table;
    if |files| == 0 then [drop]
    else [drop, "CREATE TABLE " + table + " AS " + Join(UnionParts(columns, files), " UNION ALL ") + ";"]
  }

  // ---------------------------------------------------------------- run_etl

  datatype Dataset = Dataset(subfolder: string, urlPattern: string)

  const Prefix := "https://s3.amazonaws.com/rcrainfo-ftp/Production/CSV-{date}/"

  /** The datasets `run_etl` knows, in declaration order. */
  const DatasetKeys: seq<string> := ["rcra", "ce", "ca", "br", "emanifest"]

  function DatasetFor(key: string): Option<Dataset> {
    if key == "rcra" then Some(Dataset("rcra", Prefix + "Handler/HD.zip"))
    else if key == "ce" then Some(Dataset("ce", Prefix + "Compliance,%20Monitoring%20and%20Enforcement/CE.zip"))
    else if key == "ca" then Some(Dataset("ca", Prefix + "Corrective%20Action/CA.zip"))
    else if key == "br" then Some(Dataset("br", Prefix + "Biennial%20Report/BR.zip"))
    else if key == "emanifest" then Some(Dataset("emanifest", Prefix + "eManifest/EM.zip"))
    else None
  }

  /** Where one ETL run downloads from and which folder it then loads. */
  datatype EtlPlan = EtlPlan(url: string, datasetDir: seq<string>)

  /**
   * The opening of `run_etl`: an unknown key raises before any work; otherwise the
   * download URL is the pattern with its `{date}` placeholder filled and the folder
   * is `<raw>/<key>/<date>/<subfolder>`.
   */
  function RunEtl(key: string, rawDir: seq<string>, date: string): (r: Result<EtlPlan>)
    ensures r.Err? <==> key !in DatasetKeys
    ensures r.Err? ==> r.error == "Unknown dataset '" + key + "'. Must be one of ['rcra', 'ce', 'ca', 'br', 'emanifest']"
    ensures r.Ok? ==> r.value.datasetDir == rawDir + [key, date, DatasetFor(key).value.subfolder]
  {
    match DatasetFor(key)
    case None => Err("Unknown dataset '" + key + "'. Must be one of ['rcra', 'ce', 'ca', 'br', 'emanifest']")
    case Some(d) => Ok(EtlPlan(ReplaceAll(d.urlPattern, "{date}", date), rawDir + [key, date, d.subfolder]))
  }

  /** Every known dataset's pattern holds the date placeholder once, in the shared prefix. */
  lemma DatasetsShareDatePrefix(key: string)
    requires key in DatasetKeys
    ensures DatasetFor(key).Some? && HasPrefix(DatasetFor(key).value.urlPattern, Prefix)
    ensures DatasetFor(key).value.subfolder == key
  {
  }
}
