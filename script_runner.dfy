/**
 * The pure helpers of the script runner (internal/runtime/script_runner.go): the layering
 * of environment variables for a job, their `KEY=VALUE` form for the child process, the
 * search for the repository root, and the classification of each line a job prints.
 * The process environment, the file system and the schema validator are parameters.
 */
module ScriptRunner {
  import opened Wrappers
  import opened Strs
  import opened Messages

  // ---------------------------------------------------------------- the process environment

  /**
   * What the loop over `os.Environ()` builds: each entry split at its first `=`, a later entry
   * for the same key winning. An entry without `=` makes `parts[1]` panic: `None`.
   */
  function OsEnv(environ: seq<string>): (r: Option<map<string, string>>)
    ensures r.Some? <==> forall i :: 0 <= i < |environ| ==> '=' in environ[i]
  {
    if |environ| == 0 then Some(map[])
    else
      var prev := OsEnv(environ[..|environ| - 1]);
      var kv := environ[|environ| - 1];
      var k := IndexOf(kv, '=');
      if prev.None? || k == |kv| then None
      else Some(prev.value[kv[..k] := kv[k + 1..]])
  }

  /**
   * `mergeEnv`: the OS environment, the repository `.env` for keys the OS does not set, then the
   * script `.env`, then the payload, each later layer overriding the earlier ones.
   */
  function Merged(os: map<string, string>, repo: map<string, string>, script: map<string, string>, payload: map<string, string>): (r: map<string, string>)
    ensures forall k :: k in r <==> k in os || k in repo || k in script || k in payload
    ensures forall k :: k in payload ==> r[k] == payload[k]
    ensures forall k :: k in script && k !in payload ==> r[k] == script[k]
    ensures forall k :: k in os && k !in script && k !in payload ==> r[k] == os[k]
    ensures forall k :: k in repo && k !in os && k !in script && k !in payload ==> r[k] == repo[k]
  {
    (os + map k | k in repo && k !in os :: repo[k]) + script + payload
  }

  /**
   * A repository `.env` value reaches the job only for a key that no other layer sets: where the
   * OS also sets the key, the OS value wins. The help text of `env` ranks the repository file
   * above the OS environment; the code does the opposite.
   */
  lemma RepoOnlyWhenUnset(os: map<string, string>, repo: map<string, string>, script: map<string, string>, payload: map<string, string>, k: string)
    requires k in repo && k in os && k !in script && k !in payload
    ensures Merged(os, repo, script, payload)[k] == os[k]
  {
  }

  /** `mergeEnv` with its four loops, the OS environment given as the list of its entries. */
  method MergeEnv(environ: seq<string>, repoEnv: map<string, string>, scriptEnv: map<string, string>, payload: map<string, string>)
    returns (out: Option<map<string, string>>)
    ensures OsEnv(environ).None? ==> out.None?
    ensures OsEnv(environ).Some? ==> out == Some(Merged(OsEnv(environ).value, repoEnv, scriptEnv, payload))
  {
    var os := ReadEnviron(environ);
    if os.None? {
      return None;
    }
    var m := FillAbsent(os.value, repoEnv);
    m := Override(m, scriptEnv);
    m := Override(m, payload);
    out := Some(m);
  }

  /** The first loop: every entry of the process environment, split at its first `=`. */
  method ReadEnviron(environ: seq<string>) returns (r: Option<map<string, string>>)
    ensures r == OsEnv(environ)
  {
    var m: map<string, string> := map[];
    for i := 0 to |environ|
      invariant OsEnv(environ[..i]) == Some(m)
    {
      assert environ[..i + 1][..i] == environ[..i];
      var kv := environ[i];
      var k := IndexOf(kv, '=');
      if k == |kv| {
        PanicPersists(environ, i + 1);
        return None;
      }
      m := m[kv[..k] := kv[k + 1..]];
    }
    assert environ[..|environ|] == environ;
    return Some(m);
  }

  /** The second loop: a repository default only for a key not yet set. */
  method FillAbsent(os: map<string, string>, repo: map<string, string>) returns (r: map<string, string>)
    ensures r == os + map k | k in repo && k !in os :: repo[k]
  {
    r := os;
    var rest := repo.Keys;
    while rest != {}
      invariant rest <= repo.Keys
      invariant forall x :: x in r <==> x in os || (x in repo && x !in rest)
      invariant forall x :: x in r ==> r[x] == FillValue(os, repo, x)
      decreases |rest|
    {
      var k :| k in rest;
      if k !in r {
        r := r[k := repo[k]];
      }
      rest := rest - {k};
    }
    FillDone(os, repo, r);
  }

  /** What the merged map holds for a key: the OS value, else the repository default. */
  function FillValue(os: map<string, string>, repo: map<string, string>, x: string): string
    requires x in os || x in repo
  {
    if x in os then os[x] else repo[x]
  }

  lemma FillDone(os: map<string, string>, repo: map<string, string>, r: map<string, string>)
    requires forall x :: x in r <==> x in os || x in repo
    requires forall x :: x in r ==> r[x] == FillValue(os, repo, x)
    ensures r == os + map k | k in repo && k !in os :: repo[k]
  {
    var t := os + map k | k in repo && k !in os :: repo[k];
    assert r.Keys == t.Keys;
    forall x | x in r ensures r[x] == t[x] {
    }
  }

  /** Once an entry without `=` is met, the whole environment loop panics. */
  lemma {:induction false} PanicPersists(environ: seq<string>, n: nat)
    requires n <= |environ| && OsEnv(environ[..n]).None?
    ensures OsEnv(environ).None?
    decreases |environ| - n
  {
    if n < |environ| {
      assert environ[..n + 1][..n] == environ[..n];
      PanicPersists(environ, n + 1);
    } else {
      assert environ[..n] == environ;
    }
  }

  /** One overriding loop: every key of `src` is written into the result. */
  method Override(dst: map<string, string>, src: map<string, string>) returns (r: map<string, string>)
    ensures r == dst + src
  {
    r := dst;
    var rest := src.Keys;
    while rest != {}
      invariant rest <= src.Keys
      invariant forall x :: x in r <==> x in dst || (x in src && x !in rest)
      invariant forall x :: x in r ==> r[x] == if x in src && x !in rest then src[x] else dst[x]
      decreases |rest|
    {
      var k :| k in rest;
      r := r[k := src[k]];
      rest := rest - {k};
    }
    OverrideDone(dst, src, r);
  }

  lemma OverrideDone(dst: map<string, string>, src: map<string, string>, r: map<string, string>)
    requires forall x :: x in r <==> x in dst || x in src
    requires forall x :: x in r ==> r[x] == if x in src then src[x] else dst[x]
    ensures r == dst + src
  {
    var t := dst + src;
    assert r.Keys == t.Keys;
    forall x | x in r ensures r[x] == t[x] {
    }
  }

  // ---------------------------------------------------------------- the child's environment

  /** The line `mapToEnv` writes for each key of a listing. */
  function Lines(keys: seq<string>, m: map<string, string>): (r: seq<string>)
    requires forall i :: 0 <= i < |keys| ==> keys[i] in m
    ensures |r| == |keys|
    ensures forall i :: 0 <= i < |keys| ==> r[i] == keys[i] + "=" + m[keys[i]]
  {
    seq(|keys|, i requires 0 <= i < |keys| => keys[i] + "=" + m[keys[i]])
  }

  /** `out` holds one `KEY=VALUE` line per entry of `m`, in some order. */
  ghost predicate EnvListing(out: seq<string>, m: map<string, string>) {
    exists keys: seq<string> :: ListedBy(keys, m) && out == Lines(keys, m)
  }

  /** `keys` lists keys of `m`, each once, as many as `m` has. */
  predicate ListedBy(keys: seq<string>, m: map<string, string>) {
    && |keys| == |m|
    && (forall i, j :: 0 <= i < j < |keys| ==> keys[i] != keys[j])
    && (forall i :: 0 <= i < |keys| ==> keys[i] in m)
  }

  /** `mapToEnv`: map iteration order is unspecified, so only the listing is promised. */
  method MapToEnv(m: map<string, string>) returns (out: seq<string>)
    ensures EnvListing(out, m)
  {
    out := [];
    ghost var keys: seq<string> := [];
    var rest := m.Keys;
    while rest != {}
      invariant rest <= m.Keys
      invariant forall i :: 0 <= i < |keys| ==> keys[i] in m && keys[i] !in rest
      invariant forall i, j :: 0 <= i < j < |keys| ==> keys[i] != keys[j]
      invariant |keys| + |rest| == |m|
      invariant out == Lines(keys, m)
      decreases |rest|
    {
      var k :| k in rest;
      out := out + [k + "=" + m[k]];
      keys := keys + [k];
      rest := rest - {k};
    }
    assert |keys| == |m| && out == Lines(keys, m);
  }

  /** A listing names every entry of `m`. */
  lemma ListingHasEveryEntry(out: seq<string>, m: map<string, string>, k: string)
    requires EnvListing(out, m) && k in m
    ensures k + "=" + m[k] in out
  {
    var keys :| ListedBy(keys, m) && out == Lines(keys, m);
    CoversAll(keys, m);
    var i :| 0 <= i < |keys| && keys[i] == k;
    assert out[i] == k + "=" + m[k];
  }

  /** Splitting `k=v` at its first `=` gives `k` back when `k` holds no `=`. */
  lemma SplitAtFirstEquals(k: string, v: string)
    requires '=' !in k
    ensures var kv := k + "=" + v; IndexOf(kv, '=') == |k| && kv[..|k|] == k && kv[|k| + 1..] == v
  {
    var kv := k + "=" + v;
    assert kv == k + ("=" + v);
    PrefixIndex(k, "=" + v, '=');
    IndexOfSingleton(kv, '=');
  }

  /** Parsing the lines of a listing back as an environment gives the listed entries. */
  lemma {:induction false} LinesParse(keys: seq<string>, m: map<string, string>)
    requires forall i :: 0 <= i < |keys| ==> keys[i] in m && '=' !in keys[i]
    ensures OsEnv(Lines(keys, m)) == Some(map k | k in keys :: m[k])
  {
    if |keys| > 0 {
      var n := |keys| - 1;
      var init := keys[..n];
      assert Lines(keys, m)[..n] == Lines(init, m);
      LinesParse(init, m);
      SplitAtFirstEquals(keys[n], m[keys[n]]);
      KeysMapSnoc(keys, m);
    }
  }

  lemma KeysMapSnoc(keys: seq<string>, m: map<string, string>)
    requires |keys| > 0 && forall i :: 0 <= i < |keys| ==> keys[i] in m
    ensures var n := |keys| - 1;
      (map k | k in keys[..n] :: m[k])[keys[n] := m[keys[n]]] == map k | k in keys :: m[k]
  {
    var n := |keys| - 1;
    var a, b := (map k | k in keys[..n] :: m[k])[keys[n] := m[keys[n]]], map k | k in keys :: m[k];
    assert forall k :: k in keys <==> k in keys[..n] || k == keys[n];
    assert a.Keys == b.Keys;
  }

  /**
   * The child process parses its environment back into exactly `m`, provided no key holds `=`
   * (a key with `=` can print the same line as another entry: `a=b`→`c` and `a`→`b=c`).
   */
  lemma MapToEnvRoundTrip(out: seq<string>, m: map<string, string>)
    requires EnvListing(out, m)
    requires forall k :: k in m ==> '=' !in k
    ensures OsEnv(out) == Some(m)
  {
    var keys :| ListedBy(keys, m) && out == Lines(keys, m);
    LinesParse(keys, m);
    ListedMap(keys, m);
  }

  lemma ListedMap(keys: seq<string>, m: map<string, string>)
    requires ListedBy(keys, m)
    ensures (map k | k in keys :: m[k]) == m
  {
    CoversAll(keys, m);
  }

  /** A duplicate-free listing of keys of `m` as long as `m` lists every key. */
  lemma CoversAll(keys: seq<string>, m: map<string, string>)
    requires ListedBy(keys, m)
    ensures forall k :: k in m ==> k in keys
  {
    var listed := set i | 0 <= i < |keys| :: keys[i];
    DistinctCard(keys);
    assert listed <= m.Keys;
    assert listed - m.Keys == {};
    assert listed * m.Keys == listed;
    assert listed + m.Keys == m.Keys;
    assert |m.Keys - listed| == 0;
    forall k | k in m ensures k in keys {
      assert k !in m.Keys - listed;
    }
  }

  lemma {:induction false} DistinctCard(keys: seq<string>)
    requires forall i, j :: 0 <= i < j < |keys| ==> keys[i] != keys[j]
    ensures |set i | 0 <= i < |keys| :: keys[i]| == |keys|
  {
    if |keys| > 0 {
      var n := |keys| - 1;
      DistinctCard(keys[..n]);
      var a := set i | 0 <= i < n :: keys[..n][i];
      var b := set i | 0 <= i < |keys| :: keys[i];
      assert b == a + {keys[n]};
      assert keys[n] !in a;
    }
  }

  // ---------------------------------------------------------------- repository root

  /** A directory as the list of its components from the file system root. */
  type Path = seq<string>

  function Render(p: Path): string {
    "/" + Join(p, "/")
  }

  /** `dir` holds `.git` or `go.mod`. */
  predicate Marked(exists_: (Path, string) -> bool, dir: Path) {
    exists_(dir, ".git") || exists_(dir, "go.mod")
  }

  /** The directory `repoRoot` stops at, walking up from `dir`. */
  function RootFrom(exists_: (Path, string) -> bool, dir: Path): Option<Path>
    decreases |dir|
  {
    if Marked(exists_, dir) then Some(dir)
    else if |dir| == 0 then None
    else RootFrom(exists_, dir[..|dir| - 1])
  }

  /**
   * The root found is the nearest marked ancestor of the start (the start included), and
   * nothing is found exactly when no ancestor up to the file system root is marked.
   */
  lemma {:induction false} RootIsNearestMarked(exists_: (Path, string) -> bool, dir: Path)
    ensures RootFrom(exists_, dir).Some? ==>
      var d := RootFrom(exists_, dir).value;
      && |d| <= |dir| && d == dir[..|d|] && Marked(exists_, d)
      && forall j :: |d| < j <= |dir| ==> !Marked(exists_, dir[..j])
    ensures RootFrom(exists_, dir).None? <==> forall j :: 0 <= j <= |dir| ==> !Marked(exists_, dir[..j])
    decreases |dir|
  {
    assert dir[..|dir|] == dir;
    if !Marked(exists_, dir) && |dir| > 0 {
      var up := dir[..|dir| - 1];
      RootIsNearestMarked(exists_, up);
      assert forall j :: 0 <= j <= |up| ==> up[..j] == dir[..j];
    }
  }

  /** `repoRoot`: the `for` loop moving `dir` to its parent until a marker or the root. */
  method RepoRoot(exists_: (Path, string) -> bool, start: Path) returns (r: Result<Path>)
    ensures RootFrom(exists_, start).Some? ==> r == Ok(RootFrom(exists_, start).value)
    ensures RootFrom(exists_, start).None? ==> r == Err("repo root not found from " + Render(start))
  {
    var dir := start;
    while true
      invariant RootFrom(exists_, dir) == RootFrom(exists_, start)
      decreases |dir|
    {
      if exists_(dir, ".git") {
        return Ok(dir);
      }
      if exists_(dir, "go.mod") {
        return Ok(dir);
      }
      if |dir| == 0 {
        return Err("repo root not found from " + Render(start));
      }
      dir := dir[..|dir| - 1];
    }
  }

  // ---------------------------------------------------------------- job output

  const DataPrefix := "##DATA##"

  /** What `pumpOutput` does with one line. */
  datatype LineKind = DataLine(payload: string) | OutputLine | Rejected

  /**
   * A line starting with `##DATA##` is a data line carrying the rest of it, unless the script
   * has an output schema that rejects that rest; any other line is output.
   */
  function Classify(line: string, hasSchema: bool, valid: string -> bool): (k: LineKind)
    ensures k.DataLine? ==> line == DataPrefix + k.payload
    ensures k.OutputLine? <==> !HasPrefix(line, DataPrefix)
    ensures k.Rejected? <==> HasPrefix(line, DataPrefix) && hasSchema && !valid(line[|DataPrefix|..])
  {
    if HasPrefix(line, DataPrefix) then
      var payload := line[|DataPrefix|..];
      if hasSchema && !valid(payload) then Rejected else DataLine(payload)
    else OutputLine
  }

  /** Everything fixed for one pump: the job, its stream and the output schema check. */
  datatype Pump = Pump(scriptName: string, jobId: string, stream: string, correlationId: string, hasSchema: bool, valid: string -> bool)

  /** The events published for one line. */
  function EventsOf(p: Pump, line: string): (r: seq<Event>)
    ensures |r| <= 1
  {
    match Classify(line, p.hasSchema, p.valid)
    case DataLine(payload) => [ScriptJobData(p.scriptName, p.jobId, payload, p.correlationId)]
    case OutputLine => [ScriptJobOutput(p.scriptName, p.jobId, p.stream, line, p.correlationId)]
    case Rejected => []
  }

  /**
   * The events of the lines from `i` on. The context is looked at only after an output line;
   * `cancelled(i)` says whether it is done by then, which ends the pump.
   */
  function PumpFrom(p: Pump, lines: seq<string>, i: nat, cancelled: nat -> bool): seq<Event>
    requires i <= |lines|
    decreases |lines| - i
  {
    if i == |lines| then []
    else if Classify(lines[i], p.hasSchema, p.valid).OutputLine? && cancelled(i) then EventsOf(p, lines[i])
    else EventsOf(p, lines[i]) + PumpFrom(p, lines, i + 1, cancelled)
  }

  /** `pumpOutput` over the scanned lines, publishing into the returned list. */
  method PumpOutput(p: Pump, lines: seq<string>, cancelled: nat -> bool) returns (events: seq<Event>)
    ensures events == PumpFrom(p, lines, 0, cancelled)
  {
    events := [];
    var i := 0;
    while i < |lines|
      invariant i <= |lines|
      invariant events + PumpFrom(p, lines, i, cancelled) == PumpFrom(p, lines, 0, cancelled)
    {
      var line := lines[i];
      var kind := Classify(line, p.hasSchema, p.valid);
      PumpStep(p, lines, i, cancelled, events);
      ghost var before := events;
      if kind.DataLine? {
        events := events + [ScriptJobData(p.scriptName, p.jobId, kind.payload, p.correlationId)];
      } else if kind.OutputLine? {
        events := events + [ScriptJobOutput(p.scriptName, p.jobId, p.stream, line, p.correlationId)];
      }
      assert events == before + EventsOf(p, line);
      if kind.OutputLine? && cancelled(i) {
        return;
      }
      i := i + 1;
    }
  }

  /** One line of the pump: its events, then the rest unless the context is done after it. */
  lemma PumpStep(p: Pump, lines: seq<string>, i: nat, cancelled: nat -> bool, before: seq<Event>)
    requires i < |lines|
    ensures var kind := Classify(lines[i], p.hasSchema, p.valid);
      && (kind.OutputLine? && cancelled(i) ==>
            before + PumpFrom(p, lines, i, cancelled) == before + EventsOf(p, lines[i]))
      && (!(kind.OutputLine? && cancelled(i)) ==>
            before + PumpFrom(p, lines, i, cancelled) == (before + EventsOf(p, lines[i])) + PumpFrom(p, lines, i + 1, cancelled))
  {
  }

  /** The events of each line from `i` on, one list per line. */
  function LineEvents(p: Pump, lines: seq<string>, i: nat): (r: seq<seq<Event>>)
    requires i <= |lines|
    ensures |r| == |lines| - i
  {
    seq(|lines| - i, j requires 0 <= j < |lines| - i => EventsOf(p, lines[i + j]))
  }

  lemma LineEventsCons(p: Pump, lines: seq<string>, i: nat)
    requires i < |lines|
    ensures LineEvents(p, lines, i) == [EventsOf(p, lines[i])] + LineEvents(p, lines, i + 1)
  {
    var xs, ys := LineEvents(p, lines, i), LineEvents(p, lines, i + 1);
    forall j | 0 <= j < |xs| ensures xs[j] == ([EventsOf(p, lines[i])] + ys)[j] {
      if j > 0 {
        assert ys[j - 1] == EventsOf(p, lines[i + 1 + (j - 1)]);
      }
    }
  }

  /** Without cancellation every line is handled in order: the events are those of each line, concatenated. */
  lemma {:induction false} PumpAll(p: Pump, lines: seq<string>, i: nat, cancelled: nat -> bool)
    requires i <= |lines|
    requires forall j :: i <= j < |lines| ==> !cancelled(j)
    ensures PumpFrom(p, lines, i, cancelled) == Flatten(LineEvents(p, lines, i))
    decreases |lines| - i
  {
    if i < |lines| {
      PumpAll(p, lines, i + 1, cancelled);
      LineEventsCons(p, lines, i);
      FlattenCons(EventsOf(p, lines[i]), LineEvents(p, lines, i + 1));
    } else {
      assert LineEvents(p, lines, i) == [];
    }
  }

  lemma {:induction false} FlattenCons<T>(x: seq<T>, ys: seq<seq<T>>)
    ensures Flatten([x] + ys) == x + Flatten(ys)
    decreases |ys|
  {
    if |ys| > 0 {
      var n := |ys| - 1;
      assert ([x] + ys)[..|ys|] == [x] + ys[..n];
      FlattenCons(x, ys[..n]);
    }
  }

  /** The pump never publishes more events than it reads lines, and every data event carries a line's remainder. */
  lemma {:induction false} PumpBounded(p: Pump, lines: seq<string>, i: nat, cancelled: nat -> bool)
    requires i <= |lines|
    ensures |PumpFrom(p, lines, i, cancelled)| <= |lines| - i
    ensures forall e :: e in PumpFrom(p, lines, i, cancelled) && e.ScriptJobData? ==> DataPrefix + e.payload in lines[i..]
    decreases |lines| - i
  {
    if i < |lines| {
      PumpBounded(p, lines, i + 1, cancelled);
      assert lines[i..] == [lines[i]] + lines[i + 1..];
    }
  }
}
