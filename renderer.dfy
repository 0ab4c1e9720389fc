/**
 * The renderer catalogue of the UI stream (internal/runtime/renderer.go and
 * internal/runtime/renderers.go): which renderers a session gets for the subjects it
 * subscribes to, the selector each writes into, and the subject parsing the script
 * renderers share. What a renderer draws (templ components, SSE) is not part of this
 * model; a renderer is the subject it serves, its handler and its selector.
 */
module RuntimeRenderer {
  import opened Wrappers
  import opened Strs
  import opened Messages
  import Subject

  /** The render functions of the catalogue, and the fallback's. */
  datatype Handler = ViewDoc | Terminal | Created | CreateError | JobStarted | JobOutput | JobExit | Fallback

  /** A renderer: its pattern, what renders, and the selector precomputed by `newSubRenderer`. */
  datatype Renderer = Renderer(pattern: string, handler: Handler, selector: Option<string>)

  /** A catalogue entry: a pattern and the handler its `Build` wraps. */
  datatype RendererSpec = RendererSpec(pattern: string, handler: Handler)

  /** `newTypedRenderer`: no selector of its own. */
  function TypedRenderer(pattern: string, h: Handler): (r: Renderer)
    ensures r.pattern == pattern && r.handler == h && r.selector.None?
  {
    Renderer(pattern, h, None)
  }

  /** `newSubRenderer`: the message box of the pattern. */
  function SubRenderer(pattern: string, h: Handler): (r: Renderer)
    ensures r.pattern == pattern && r.handler == h
    ensures r.selector == Some(Subject.SelectorFor(pattern) + "-msg")
  {
    Renderer(pattern, h, Some(Subject.SelectorFor(pattern) + "-msg"))
  }

  /** The fallback renderer, for every subject. */
  const FallbackRenderer := Renderer(">", Fallback, None)

  /** The fallback writes into the message box of each message's own subject. */
  function FallbackSelector(msgSubject: string): string {
    Subject.SelectorFor(msgSubject) + "-msg"
  }

  /** The fallback pattern catches every subject. */
  lemma FallbackMatchesAll(subj: string)
    ensures Subject.Matches(FallbackRenderer.pattern, subj)
  {
    Subject.GreaterMatchesAll(subj);
  }

  // ---------------------------------------------------------------- the catalogue

  /** `Specs`, as filled by `init`. */
  const Specs: seq<RendererSpec> := [
    RendererSpec("event.terminal.session.*.viewdoc", ViewDoc),
    RendererSpec("event.terminal.session.*.freeze", Terminal),
    RendererSpec("event.script.*.created", Created),
    RendererSpec("event.script.*.create.error", CreateError),
    RendererSpec("event.script.*.job.*.started", JobStarted),
    RendererSpec("event.script.*.job.*.stdout", JobOutput),
    RendererSpec("event.script.*.job.*.stderr", JobOutput),
    RendererSpec("event.script.*.job.*.exit", JobExit)]

  /** Each spec's `Build`: the two terminal renderers are typed, the script ones sub-renderers; all serve the subject. */
  function Build(spec: RendererSpec, subj: string): (r: Renderer)
    ensures r.pattern == subj && r.handler == spec.handler
    ensures r.selector.Some? <==> spec.handler !in {ViewDoc, Terminal}
  {
    if spec.handler in {ViewDoc, Terminal} then TypedRenderer(subj, spec.handler) else SubRenderer(subj, spec.handler)
  }

  /** Patterns no two alike and none holding `|`: each (pattern, subject) key is then distinct. */
  predicate WellFormed(specs: seq<RendererSpec>) {
    && (forall i, j :: 0 <= i < j < |specs| ==> specs[i].pattern != specs[j].pattern)
    && (forall i :: 0 <= i < |specs| ==> '|' !in specs[i].pattern)
  }

  /** The catalogue has eight entries and is well formed. */
  lemma SpecsWellFormed()
    ensures |Specs| == 8 && WellFormed(Specs)
  {
    forall i | 0 <= i < |Specs| ensures '|' !in Specs[i].pattern {
      CataloguePattern(Specs[i].pattern);
    }
  }

  lemma CataloguePattern(p: string)
    requires p in [
      "event.terminal.session.*.viewdoc", "event.terminal.session.*.freeze", "event.script.*.created",
      "event.script.*.create.error", "event.script.*.job.*.started", "event.script.*.job.*.stdout",
      "event.script.*.job.*.stderr", "event.script.*.job.*.exit"]
    ensures '|' !in p
  {
    LowerNoBar("event.terminal.session.*.viewdoc");
    LowerNoBar("event.terminal.session.*.freeze");
    LowerNoBar("event.script.*.created");
    LowerNoBar("event.script.*.create.error");
    LowerNoBar("event.script.*.job.*.started");
    LowerNoBar("event.script.*.job.*.stdout");
    LowerNoBar("event.script.*.job.*.stderr");
    LowerNoBar("event.script.*.job.*.exit");
  }

  predicate PatternText(p: string) {
    forall k :: 0 <= k < |p| ==> p[k] in "abcdefghijklmnopqrstuvwxyz.*"
  }

  lemma LowerNoBar(p: string)
    requires PatternText(p)
    ensures '|' !in p
  {
  }

  // ---------------------------------------------------------------- ForSubjects

  /** The renderers built for one subject by the first `n` specs it matches, in spec order. */
  function Row(specs: seq<RendererSpec>, s: string, n: nat): (r: seq<Renderer>)
    requires n <= |specs|
    ensures |r| <= n
  {
    if n == 0 then []
    else Row(specs, s, n - 1) + (if Subject.Matches(specs[n - 1].pattern, s) then [Build(specs[n - 1], s)] else [])
  }

  /** The renderers for a list of subjects: a row for each subject not seen before, in subject order. */
  function Rendered(specs: seq<RendererSpec>, subjects: seq<string>): seq<Renderer> {
    if |subjects| == 0 then []
    else
      var init := subjects[..|subjects| - 1];
      var s := subjects[|subjects| - 1];
      Rendered(specs, init) + (if s in init then [] else Row(specs, s, |specs|))
  }

  function Key(pattern: string, subj: string): string {
    pattern + "|" + subj
  }

  /** The keys marked seen by the rows of one subject. */
  function RowKeys(specs: seq<RendererSpec>, s: string, n: nat): set<string>
    requires n <= |specs|
  {
    if n == 0 then {}
    else RowKeys(specs, s, n - 1) + (if Subject.Matches(specs[n - 1].pattern, s) then {Key(specs[n - 1].pattern, s)} else {})
  }

  function SeenKeys(specs: seq<RendererSpec>, subjects: seq<string>): set<string> {
    if |subjects| == 0 then {}
    else SeenKeys(specs, subjects[..|subjects| - 1]) + RowKeys(specs, subjects[|subjects| - 1], |specs|)
  }

  /** A key names its pattern and subject, because patterns hold no `|`. */
  lemma KeyInjective(p: string, s: string, q: string, t: string)
    requires '|' !in p && '|' !in q
    requires Key(p, s) == Key(q, t)
    ensures p == q && s == t
  {
    var k := Key(p, s);
    assert k == p + ("|" + s) && k == q + ("|" + t);
    PrefixIndex(p, "|" + s, '|');
    PrefixIndex(q, "|" + t, '|');
    assert k[..|p|] == p && k[..|q|] == q;
    assert k[|p| + 1..] == s && k[|q| + 1..] == t;
  }

  lemma {:induction false} RowKeysHold(specs: seq<RendererSpec>, s: string, n: nat, t: string, j: nat)
    requires WellFormed(specs) && n <= |specs| && j < |specs|
    ensures Key(specs[j].pattern, t) in RowKeys(specs, s, n) <==> t == s && j < n && Subject.Matches(specs[j].pattern, s)
  {
    if n > 0 {
      RowKeysHold(specs, s, n - 1, t, j);
      if Key(specs[j].pattern, t) == Key(specs[n - 1].pattern, s) {
        KeyInjective(specs[j].pattern, t, specs[n - 1].pattern, s);
      }
    }
  }

  lemma {:induction false} SeenKeysHold(specs: seq<RendererSpec>, subjects: seq<string>, t: string, j: nat)
    requires WellFormed(specs) && j < |specs|
    ensures Key(specs[j].pattern, t) in SeenKeys(specs, subjects) <==> t in subjects && Subject.Matches(specs[j].pattern, t)
  {
    if |subjects| > 0 {
      var init := subjects[..|subjects| - 1];
      SeenKeysHold(specs, init, t, j);
      RowKeysHold(specs, subjects[|subjects| - 1], |specs|, t, j);
      assert subjects == init + [subjects[|subjects| - 1]];
    }
  }

  /**
   * `ForSubjects`: for each subject and each matching spec a renderer, skipping a
   * (pattern, subject) pair already seen, and the fallback last.
   */
  method ForSubjects(subjects: seq<string>) returns (out: seq<Renderer>)
    ensures out == Rendered(Specs, subjects) + [FallbackRenderer]
  {
    SpecsWellFormed();
    out := Materialise(Specs, subjects);
  }

  /** The loops of `ForSubjects` over a well-formed catalogue. */
  method Materialise(specs: seq<RendererSpec>, subjects: seq<string>) returns (out: seq<Renderer>)
    requires WellFormed(specs)
    ensures out == Rendered(specs, subjects) + [FallbackRenderer]
  {
    out := [];
    var seen: set<string> := {};
    for i := 0 to |subjects|
      invariant out == Rendered(specs, subjects[..i])
      invariant seen == SeenKeys(specs, subjects[..i])
    {
      assert subjects[..i + 1][..i] == subjects[..i];
      seen, out := AddRow(specs, subjects[i], seen, out, subjects[..i]);
    }
    assert subjects[..|subjects|] == subjects;
    out := out + [FallbackRenderer];
  }

  /** The inner loop of `ForSubjects`: one subject against every spec, skipping keys already seen. */
  method AddRow(specs: seq<RendererSpec>, s: string, seen0: set<string>, out0: seq<Renderer>, ghost prior: seq<string>)
    returns (seen: set<string>, out: seq<Renderer>)
    requires WellFormed(specs) && seen0 == SeenKeys(specs, prior)
    ensures seen == seen0 + RowKeys(specs, s, |specs|)
    ensures out == out0 + (if s in prior then [] else Row(specs, s, |specs|))
  {
    seen, out := seen0, out0;
    for j := 0 to |specs|
      invariant seen == seen0 + RowKeys(specs, s, j)
      invariant out == out0 + (if s in prior then [] else Row(specs, s, j))
    {
      var spec := specs[j];
      var matches := Subject.SubjectMatches(spec.pattern, s);
      var key := Key(spec.pattern, s);
      RowStepSeen(specs, prior, s, j, seen0, seen, matches);
      RowStepOut(specs, prior, s, j, seen0, seen, out0, out, matches);
      if matches && key !in seen {
        seen := seen + {key};
        out := out + [Build(spec, s)];
      }
    }
  }

  /** One iteration of `AddRow` keeps its first invariant. */
  lemma RowStepSeen(specs: seq<RendererSpec>, prior: seq<string>, s: string, j: nat, seen0: set<string>, seen: set<string>, matches: bool)
    requires j < |specs| && matches == Subject.Matches(specs[j].pattern, s)
    requires seen == seen0 + RowKeys(specs, s, j)
    ensures var key := Key(specs[j].pattern, s);
            (if matches && key !in seen then seen + {key} else seen) == seen0 + RowKeys(specs, s, j + 1)
  {
  }

  /** One iteration of `AddRow` keeps its second invariant: a matching pair is new exactly when its subject is. */
  lemma RowStepOut(specs: seq<RendererSpec>, prior: seq<string>, s: string, j: nat, seen0: set<string>, seen: set<string>,
                   out0: seq<Renderer>, out: seq<Renderer>, matches: bool)
    requires WellFormed(specs) && j < |specs| && matches == Subject.Matches(specs[j].pattern, s)
    requires seen0 == SeenKeys(specs, prior) && seen == seen0 + RowKeys(specs, s, j)
    requires out == out0 + (if s in prior then [] else Row(specs, s, j))
    ensures var key := Key(specs[j].pattern, s);
            (if matches && key !in seen then out + [Build(specs[j], s)] else out)
              == out0 + (if s in prior then [] else Row(specs, s, j + 1))
  {
    var step := if matches then [Build(specs[j], s)] else [];
    assert Row(specs, s, j + 1) == Row(specs, s, j) + step;
    if matches {
      SeenBeforeRow(specs, prior, s, j);
      if s !in prior {
        assert out + step == out0 + (Row(specs, s, j) + step);
      }
    }
  }

  /** Within `AddRow`, a matching pair's key is already seen exactly when its subject came earlier. */
  lemma SeenBeforeRow(specs: seq<RendererSpec>, prior: seq<string>, s: string, j: nat)
    requires WellFormed(specs) && j < |specs|
    ensures Key(specs[j].pattern, s) in SeenKeys(specs, prior) + RowKeys(specs, s, j) <==> s in prior && Subject.Matches(specs[j].pattern, s)
  {
    SeenKeysHold(specs, prior, s, j);
    RowKeysHold(specs, s, j, s, j);
  }

  /** A subject listed twice gets its renderers once. */
  lemma RepeatAddsNothing(specs: seq<RendererSpec>, subjects: seq<string>, s: string)
    requires s in subjects
    ensures Rendered(specs, subjects + [s]) == Rendered(specs, subjects)
  {
    assert (subjects + [s])[..|subjects|] == subjects;
  }

  /** The row of each subject that has not occurred earlier in the list. */
  function FirstRows(specs: seq<RendererSpec>, subjects: seq<string>): (r: seq<seq<Renderer>>)
    ensures |r| == |subjects|
  {
    seq(|subjects|, i requires 0 <= i < |subjects| => if subjects[i] in subjects[..i] then [] else Row(specs, subjects[i], |specs|))
  }

  /** Subject-major order: the rows of the first occurrences of the subjects, concatenated in list order. */
  lemma {:induction false} SubjectMajor(specs: seq<RendererSpec>, subjects: seq<string>)
    ensures Rendered(specs, subjects) == Flatten(FirstRows(specs, subjects))
  {
    if |subjects| > 0 {
      var n := |subjects| - 1;
      var init := subjects[..n];
      SubjectMajor(specs, init);
      var rows := FirstRows(specs, subjects);
      assert rows[..n] == FirstRows(specs, init) by {
        forall i | 0 <= i < n ensures init[..i] == subjects[..i] && rows[i] == FirstRows(specs, init)[i] {
        }
      }
    }
  }

  /** A row holds a renderer for each spec its subject matches, and only those. */
  lemma {:induction false} RowHasMatches(specs: seq<RendererSpec>, s: string, n: nat)
    requires n <= |specs|
    ensures forall j :: 0 <= j < n && Subject.Matches(specs[j].pattern, s) ==> Build(specs[j], s) in Row(specs, s, n)
    ensures forall r :: r in Row(specs, s, n) ==> exists k :: 0 <= k < n && Subject.Matches(specs[k].pattern, s) && r == Build(specs[k], s)
  {
    if n > 0 {
      RowHasMatches(specs, s, n - 1);
    }
  }

  /** Every matching (spec, subject) pair has its renderer, and every renderer comes from such a pair. */
  lemma {:induction false} RenderedPairs(specs: seq<RendererSpec>, subjects: seq<string>)
    ensures forall s, j :: s in subjects && 0 <= j < |specs| && Subject.Matches(specs[j].pattern, s) ==> Build(specs[j], s) in Rendered(specs, subjects)
    ensures forall r :: r in Rendered(specs, subjects) ==>
      exists t, k :: t in subjects && 0 <= k < |specs| && Subject.Matches(specs[k].pattern, t) && r == Build(specs[k], t)
  {
    if |subjects| > 0 {
      var n := |subjects| - 1;
      var init := subjects[..n];
      var last := subjects[n];
      RenderedPairs(specs, init);
      RowHasMatches(specs, last, |specs|);
      var row := if last in init then [] else Row(specs, last, |specs|);
      assert Rendered(specs, subjects) == Rendered(specs, init) + row;
      assert subjects == init + [last];
      forall s, j | s in subjects && 0 <= j < |specs| && Subject.Matches(specs[j].pattern, s)
        ensures Build(specs[j], s) in Rendered(specs, subjects)
      {
        if s in init {
          assert Build(specs[j], s) in Rendered(specs, init);
        } else {
          assert s == last && row == Row(specs, last, |specs|);
        }
      }
      forall r | r in Rendered(specs, subjects)
        ensures exists t, k :: t in subjects && 0 <= k < |specs| && Subject.Matches(specs[k].pattern, t) && r == Build(specs[k], t)
      {
        if r in Rendered(specs, init) {
          var t, k :| t in init && 0 <= k < |specs| && Subject.Matches(specs[k].pattern, t) && r == Build(specs[k], t);
          assert t in subjects;
        } else {
          assert r in row;
          var k :| 0 <= k < |specs| && Subject.Matches(specs[k].pattern, last) && r == Build(specs[k], last);
          assert last in subjects;
        }
      }
    }
  }

  /** At most a renderer per subject and spec. */
  lemma {:induction false} RenderedBound(specs: seq<RendererSpec>, subjects: seq<string>)
    ensures |Rendered(specs, subjects)| <= |subjects| * |specs|
  {
    if |subjects| > 0 {
      var n := |subjects| - 1;
      var init := subjects[..n];
      var last := subjects[n];
      RenderedBound(specs, init);
      var row := if last in init then [] else Row(specs, last, |specs|);
      assert Rendered(specs, subjects) == Rendered(specs, init) + row;
      assert |row| <= |specs|;
      AddBound(|Rendered(specs, init)|, |row|, n, |specs|);
    }
  }

  lemma AddBound(a: nat, b: nat, n: nat, k: nat)
    requires a <= n * k && b <= k
    ensures a + b <= (n + 1) * k
  {
    assert (n + 1) * k == n * k + k;
  }

  // ---------------------------------------------------------------- script subjects

  /**
   * `parseScriptSubject`: the third token is the script name and, after a `job` token, the
   * fifth is the job id; missing tokens give "".
   */
  function ParseScriptSubject(subj: string): (r: (string, string))
    ensures var parts := Split(subj, '.');
            && (|parts| >= 3 ==> r.0 == parts[2])
            && (|parts| < 3 ==> r.0 == "")
            && (|parts| >= 5 && parts[3] == "job" ==> r.1 == parts[4])
            && (|parts| < 5 || parts[3] != "job" ==> r.1 == "")
  {
    var parts := Split(subj, '.');
    var name := if |parts| >= 3 then parts[2] else "";
    var job := if |parts| >= 5 && parts[3] == "job" then parts[4] else "";
    (name, job)
  }

  lemma ParseJobSubject(s: string, j: string, kind: string)
    requires DotFree(s) && DotFree(j) && DotFree(kind)
    ensures ParseScriptSubject("event.script." + s + ".job." + j + "." + kind) == (s, j)
  {
    JobSubjectTokens(s, j, kind);
  }

  /** For dot-free names the parser recovers what the schema's builders put in. */
  lemma ParseInvertsBuilders(s: string, j: string)
    requires DotFree(s) && DotFree(j)
    ensures ParseScriptSubject(ScriptJobExitSubject(s, j)) == (s, j)
    ensures ParseScriptSubject(ScriptJobStartedSubject(s, j)) == (s, j)
    ensures ParseScriptSubject(ScriptJobStdoutSubject(s, j)) == (s, j)
    ensures ParseScriptSubject(ScriptJobStderrSubject(s, j)) == (s, j)
    ensures ParseScriptSubject(ScriptCreatedSubject(s)) == (s, "")
    ensures ParseScriptSubject(ScriptCreateErrorSubject(s)) == (s, "")
  {
    ParseJobBuilders(s, j);
    ParseScriptBuilders(s);
  }

  lemma ParseJobBuilders(s: string, j: string)
    requires DotFree(s) && DotFree(j)
    ensures ParseScriptSubject(ScriptJobExitSubject(s, j)) == (s, j)
    ensures ParseScriptSubject(ScriptJobStartedSubject(s, j)) == (s, j)
    ensures ParseScriptSubject(ScriptJobStdoutSubject(s, j)) == (s, j)
    ensures ParseScriptSubject(ScriptJobStderrSubject(s, j)) == (s, j)
  {
    ParseExit(s, j);
    ParseStarted(s, j);
    ParseStdout(s, j);
    ParseStderr(s, j);
  }

  lemma ParseExit(s: string, j: string)
    requires DotFree(s) && DotFree(j)
    ensures ParseScriptSubject(ScriptJobExitSubject(s, j)) == (s, j)
  {
    assert ScriptJobExitSubject(s, j) == "event.script." + s + ".job." + j + "." + "exit";
    ParseJobSubject(s, j, "exit");
  }

  lemma ParseStarted(s: string, j: string)
    requires DotFree(s) && DotFree(j)
    ensures ParseScriptSubject(ScriptJobStartedSubject(s, j)) == (s, j)
  {
    assert ScriptJobStartedSubject(s, j) == "event.script." + s + ".job." + j + "." + "started";
    ParseJobSubject(s, j, "started");
  }

  lemma ParseStdout(s: string, j: string)
    requires DotFree(s) && DotFree(j)
    ensures ParseScriptSubject(ScriptJobStdoutSubject(s, j)) == (s, j)
  {
    assert ScriptJobStdoutSubject(s, j) == "event.script." + s + ".job." + j + "." + "stdout";
    ParseJobSubject(s, j, "stdout");
  }

  lemma ParseStderr(s: string, j: string)
    requires DotFree(s) && DotFree(j)
    ensures ParseScriptSubject(ScriptJobStderrSubject(s, j)) == (s, j)
  {
    assert ScriptJobStderrSubject(s, j) == "event.script." + s + ".job." + j + "." + "stderr";
    ParseJobSubject(s, j, "stderr");
  }

  lemma ParseScriptBuilders(s: string)
    requires DotFree(s)
    ensures ParseScriptSubject(ScriptCreatedSubject(s)) == (s, "")
    ensures ParseScriptSubject(ScriptCreateErrorSubject(s)) == (s, "")
  {
    assert ScriptCreatedSubject(s) == "event.script." + s + "." + "created";
    ScriptSubjectTokens(s, "created");
    assert ScriptCreateErrorSubject(s) == "event.script." + s + "." + "create" + "." + "error";
    ScriptSubjectTokens5(s, "create", "error");
  }

  /** `renderJobOutput`'s test: a subject is stderr output iff it ends in `.stderr`. */
  predicate IsStderr(subj: string) {
    HasSuffix(subj, ".stderr")
  }

  lemma StderrOnlyForStderr(s: string, j: string)
    ensures IsStderr(ScriptJobStderrSubject(s, j))
    ensures !IsStderr(ScriptJobStdoutSubject(s, j))
  {
    var e := ScriptJobStderrSubject(s, j);
    var o := ScriptJobStdoutSubject(s, j);
    assert e == ("event.script." + s + ".job." + j) + ".stderr";
    assert o == ("event.script." + s + ".job." + j) + ".stdout";
    assert e[|e| - 7..] == ".stderr";
    assert o[|o| - 7..] == ".stdout";
  }
}
