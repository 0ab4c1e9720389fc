/**
 * The call-selection half of the Gong transcript summariser
 * (scripts/analyze_gong/main.py): finding a call's Salesforce account name,
 * filtering calls by account and duration, the speaker map, the plain-text
 * transcript handed to the model, and the selection `main` performs before
 * any model client exists.
 *
 * Documents are decoded JSON. A Python-level failure (calling `.get` on a
 * non-dict, iterating a number, hashing a list) is an `Err` carrying the
 * exception's class name; the first failure aborts the computation, as the
 * uncaught exception does in the script.
 */
module GongAnalysis {
  import opened Wrappers
  import opened Strs
  import opened Json
  import ScriptRunner

  const AttributeError := "AttributeError"
  const TypeError := "TypeError"
  const KeyError := "KeyError"

  // ---------------------------------------------------------------- Python views of JSON values

  /** `d.get(key, default)` on a dict. */
  function At(d: map<string, Value>, key: string, default: Value): Value {
    if key in d then d[key] else default
  }

  /**
   * The elements `for x in v` visits when the loop body calls `x.get`: a
   * list's items; the empty string or dict, which visit nothing; a non-empty
   * string or dict, whose first element (a `str`) has no `get`; and anything
   * else, which is not iterable.
   */
  function Iter(v: Value): Result<seq<Value>> {
    match v
    case Array(xs) => Ok(xs)
    case Str(s) => if s == "" then Ok([]) else Err(AttributeError)
    case Object(m) => if m == map[] then Ok([]) else Err(AttributeError)
    case _ => Err(TypeError)
  }

  /** A JSON number is zero when its digits before any exponent are all zero. */
  predicate NumberIsZero(text: string) {
    var mantissa := text[..IndexOfAny(text, {'e', 'E'})];
    forall i :: 0 <= i < |mantissa| ==> mantissa[i] in {'0', '.', '-', '+'}
  }

  /** Python truthiness. */
  predicate Truthy(v: Value) {
    match v
    case Null => false
    case Bool(b) => b
    case Number(t) => !NumberIsZero(t)
    case Str(s) => s != ""
    case Array(xs) => xs != []
    case Object(m) => m != map[]
  }

  /** Lists and dicts cannot be dict keys or set members. */
  predicate Hashable(v: Value) {
    !v.Array? && !v.Object?
  }

  /**
   * `str(v)`, as an f-string shows it. Python's repr of a dict lists its keys
   * in insertion order, which a decoded map does not keep, so it is a parameter.
   */
  function PyStr(v: Value, dictRepr: map<string, Value> -> string): string {
    if v.Str? then v.s else PyRepr(v, dictRepr)
  }

  function PyRepr(v: Value, dictRepr: map<string, Value> -> string): string
    decreases v
  {
    match v
    case Null => "None"
    case Bool(b) => if b then "True" else "False"
    case Number(t) => t
    case Str(s) => "'" + s + "'"
    case Array(xs) => "[" + Join(seq(|xs|, i requires 0 <= i < |xs| => PyRepr(xs[i], dictRepr)), ", ") + "]"
    case Object(m) => dictRepr(m)
  }

  // ---------------------------------------------------------------- filtering with exceptions

  /** `[x for x in xs if keep(x)]` where evaluating `keep` may raise; the first failure aborts. */
  function Select<T>(xs: seq<T>, keep: T -> Result<bool>): Result<seq<T>>
    decreases |xs|
  {
    if xs == [] then Ok([])
    else
      match Select(xs[..|xs| - 1], keep)
      case Err(e) => Err(e)
      case Ok(out) =>
        match keep(xs[|xs| - 1])
        case Err(e) => Err(e)
        case Ok(b) => Ok(if b then out + [xs[|xs| - 1]] else out)
  }

  /** The same list comprehension over a predicate that cannot raise. */
  function Filter<T>(xs: seq<T>, p: T -> bool): (r: seq<T>) {
    if xs == [] then [] else (if p(xs[0]) then [xs[0]] else []) + Filter(xs[1..], p)
  }

  lemma {:induction false} FilterSnoc<T>(xs: seq<T>, x: T, p: T -> bool)
    ensures Filter(xs + [x], p) == Filter(xs, p) + (if p(x) then [x] else [])
  {
    if xs != [] {
      assert (xs + [x])[1..] == xs[1..] + [x];
      FilterSnoc(xs[1..], x, p);
    }
  }

  lemma {:induction false} FilterMembers<T>(xs: seq<T>, p: T -> bool)
    ensures |Filter(xs, p)| <= |xs|
    ensures forall x :: x in Filter(xs, p) <==> x in xs && p(x)
  {
    if xs != [] {
      FilterMembers(xs[1..], p);
      assert xs == [xs[0]] + xs[1..];
    }
  }

  /**
   * The selection succeeds iff no element makes `keep` raise, and then it is
   * the plain comprehension: the kept elements, in input order.
   */
  lemma {:induction false} SelectIsFilter<T>(xs: seq<T>, keep: T -> Result<bool>)
    ensures Select(xs, keep).Ok? <==> forall i :: 0 <= i < |xs| ==> keep(xs[i]).Ok?
    ensures Select(xs, keep).Ok? ==> Select(xs, keep).value == Filter(xs, x => keep(x) == Ok(true))
  {
    if xs != [] {
      var init := xs[..|xs| - 1];
      var last := xs[|xs| - 1];
      SelectIsFilter(init, keep);
      assert xs == init + [last];
      FilterSnoc(init, last, x => keep(x) == Ok(true));
      assert forall i :: 0 <= i < |init| ==> init[i] == xs[i];
    }
  }

  /** A failed selection reports the error of the first element that raised. */
  lemma {:induction false} SelectFirstError<T>(xs: seq<T>, keep: T -> Result<bool>)
    requires Select(xs, keep).Err?
    ensures exists i :: 0 <= i < |xs| && keep(xs[i]) == Err(Select(xs, keep).error) && forall j :: 0 <= j < i ==> keep(xs[j]).Ok?
  {
    var init := xs[..|xs| - 1];
    assert forall j :: 0 <= j < |init| ==> init[j] == xs[j];
    if Select(init, keep).Err? {
      SelectFirstError(init, keep);
      var i :| 0 <= i < |init| && keep(init[i]) == Err(Select(init, keep).error) && forall j :: 0 <= j < i ==> keep(init[j]).Ok?;
      assert keep(xs[i]) == Err(Select(xs, keep).error);
    } else {
      SelectIsFilter(init, keep);
      assert keep(xs[|xs| - 1]) == Err(Select(xs, keep).error);
    }
  }

  /** Once a prefix raises, the whole selection fails with that error. */
  lemma {:induction false} SelectPrefixErr<T>(xs: seq<T>, keep: T -> Result<bool>, i: nat)
    requires i <= |xs| && Select(xs[..i], keep).Err?
    ensures Select(xs, keep) == Select(xs[..i], keep)
    decreases |xs| - i
  {
    if i < |xs| {
      assert xs[..i + 1][..i] == xs[..i];
      SelectPrefixErr(xs, keep, i + 1);
    } else {
      assert xs[..i] == xs;
    }
  }

  /** Every member of a successful selection is an input element `keep` accepted. */
  lemma SelectMembers<T>(xs: seq<T>, keep: T -> Result<bool>)
    requires Select(xs, keep).Ok?
    ensures forall x :: x in Select(xs, keep).value <==> x in xs && keep(x) == Ok(true)
  {
    SelectIsFilter(xs, keep);
    FilterMembers(xs, x => keep(x) == Ok(true));
  }

  // ---------------------------------------------------------------- get_company_name

  /** Where a search through nested lists stands: nothing yet, a returned value, or an exception. */
  datatype Scan = NotFound | Found(value: Value) | Failed(error: string)

  /** A field dict named "Name". */
  predicate IsNameField(f: Value) {
    f.Object? && At(f.fields, "name", Null) == Str("Name")
  }

  /** The innermost loop: the first field named "Name" returns its "value". */
  function ScanFields(fields: seq<Value>): Scan {
    if fields == [] then NotFound
    else if !fields[0].Object? then Failed(AttributeError)
    else if IsNameField(fields[0]) then Found(At(fields[0].fields, "value", Null))
    else ScanFields(fields[1..])
  }

  /** The loop over a context's objects: only "Account" objects are searched. */
  function ScanObjects(objs: seq<Value>): Scan {
    if objs == [] then NotFound
    else if !objs[0].Object? then Failed(AttributeError)
    else if At(objs[0].fields, "objectType", Null) != Str("Account") then ScanObjects(objs[1..])
    else
      match Iter(At(objs[0].fields, "fields", Array([])))
      case Err(e) => Failed(e)
      case Ok(fs) => if ScanFields(fs).NotFound? then ScanObjects(objs[1..]) else ScanFields(fs)
  }

  /** The loop over a call's contexts: only "Salesforce" contexts are searched. */
  function ScanContexts(ctxs: seq<Value>): Scan {
    if ctxs == [] then NotFound
    else if !ctxs[0].Object? then Failed(AttributeError)
    else if At(ctxs[0].fields, "system", Null) != Str("Salesforce") then ScanContexts(ctxs[1..])
    else
      match Iter(At(ctxs[0].fields, "objects", Array([])))
      case Err(e) => Failed(e)
      case Ok(os) => if ScanObjects(os).NotFound? then ScanContexts(ctxs[1..]) else ScanObjects(os)
  }

  /** `get_company_name(call)`: `Null` is Python's `None`. */
  function CompanyName(call: Value): Result<Value> {
    if !call.Object? then Err(AttributeError)
    else
      match Iter(At(call.fields, "context", Array([])))
      case Err(e) => Err(e)
      case Ok(cs) =>
        match ScanContexts(cs)
        case NotFound => Ok(Null)
        case Found(v) => Ok(v)
        case Failed(e) => Err(e)
  }

  /** Every element is a dict. */
  predicate Dicts(xs: seq<Value>) {
    forall i :: 0 <= i < |xs| ==> xs[i].Object?
  }

  /**
   * Reference reading of a well-formed call: the field dicts of its Account
   * objects in Salesforce contexts, in document order; `None` when some list
   * on the way is not a list of dicts.
   */
  function ObjectFields(objs: seq<Value>): Option<seq<Value>> {
    if objs == [] then Some([])
    else if !objs[0].Object? then None
    else
      var rest := ObjectFields(objs[1..]);
      if At(objs[0].fields, "objectType", Null) != Str("Account") then rest
      else
        match Iter(At(objs[0].fields, "fields", Array([])))
        case Err(_) => None
        case Ok(fs) => if !Dicts(fs) || rest.None? then None else Some(fs + rest.value)
  }

  function ContextFields(ctxs: seq<Value>): Option<seq<Value>> {
    if ctxs == [] then Some([])
    else if !ctxs[0].Object? then None
    else
      var rest := ContextFields(ctxs[1..]);
      if At(ctxs[0].fields, "system", Null) != Str("Salesforce") then rest
      else
        match Iter(At(ctxs[0].fields, "objects", Array([])))
        case Err(_) => None
        case Ok(os) =>
          var here := ObjectFields(os);
          if here.None? || rest.None? then None else Some(here.value + rest.value)
  }

  function CallFields(call: Value): Option<seq<Value>> {
    if !call.Object? then None
    else
      match Iter(At(call.fields, "context", Array([])))
      case Err(_) => None
      case Ok(cs) => ContextFields(cs)
  }

  /** Index of the first "Name" field, or `|fs|`. */
  function FirstNameIndex(fs: seq<Value>): (k: nat)
    ensures k <= |fs|
    ensures k < |fs| ==> IsNameField(fs[k])
    ensures forall j :: 0 <= j < k ==> !IsNameField(fs[j])
  {
    if fs == [] then 0 else if IsNameField(fs[0]) then 0 else 1 + FirstNameIndex(fs[1..])
  }

  lemma {:induction false} ScanFieldsConcat(a: seq<Value>, b: seq<Value>)
    ensures ScanFields(a + b) == if ScanFields(a).NotFound? then ScanFields(b) else ScanFields(a)
  {
    if a == [] {
      assert a + b == b;
    } else {
      assert (a + b)[0] == a[0];
      assert (a + b)[1..] == a[1..] + b;
      ScanFieldsConcat(a[1..], b);
    }
  }

  lemma {:induction false} ScanFieldsFirst(fs: seq<Value>)
    requires Dicts(fs)
    ensures ScanFields(fs) == if FirstNameIndex(fs) < |fs| then Found(At(fs[FirstNameIndex(fs)].fields, "value", Null)) else NotFound
  {
    if fs != [] && !IsNameField(fs[0]) {
      assert Dicts(fs[1..]) by { assert forall i :: 0 <= i < |fs| - 1 ==> fs[1..][i] == fs[i + 1]; }
      ScanFieldsFirst(fs[1..]);
    }
  }

  lemma {:induction false} ScanObjectsFields(objs: seq<Value>)
    requires ObjectFields(objs).Some?
    ensures ScanObjects(objs) == ScanFields(ObjectFields(objs).value)
  {
    if objs != [] {
      ScanObjectsFields(objs[1..]);
      if At(objs[0].fields, "objectType", Null) == Str("Account") {
        var fs := Iter(At(objs[0].fields, "fields", Array([]))).value;
        ScanFieldsConcat(fs, ObjectFields(objs[1..]).value);
      }
    }
  }

  lemma {:induction false} ScanContextsFields(ctxs: seq<Value>)
    requires ContextFields(ctxs).Some?
    ensures ScanContexts(ctxs) == ScanFields(ContextFields(ctxs).value)
  {
    if ctxs != [] {
      ScanContextsFields(ctxs[1..]);
      if At(ctxs[0].fields, "system", Null) == Str("Salesforce") {
        var os := Iter(At(ctxs[0].fields, "objects", Array([]))).value;
        ScanObjectsFields(os);
        ScanFieldsConcat(ObjectFields(os).value, ContextFields(ctxs[1..]).value);
      }
    }
  }

  lemma {:induction false} ObjectFieldsDicts(objs: seq<Value>)
    requires ObjectFields(objs).Some?
    ensures Dicts(ObjectFields(objs).value)
  {
    if objs != [] {
      ObjectFieldsDicts(objs[1..]);
    }
  }

  lemma {:induction false} ContextFieldsDicts(ctxs: seq<Value>)
    requires ContextFields(ctxs).Some?
    ensures Dicts(ContextFields(ctxs).value)
  {
    if ctxs != [] {
      ContextFieldsDicts(ctxs[1..]);
      if At(ctxs[0].fields, "system", Null) == Str("Salesforce") {
        ObjectFieldsDicts(Iter(At(ctxs[0].fields, "objects", Array([]))).value);
      }
    }
  }

  /**
   * On a well-formed call, the company name is the "value" of the first field
   * named "Name" among the Account objects of Salesforce contexts, in
   * document order, and `None` when there is no such field.
   */
  lemma CompanyNameIsFirstNameField(call: Value)
    requires CallFields(call).Some?
    ensures var fs := CallFields(call).value;
      CompanyName(call) == Ok(if FirstNameIndex(fs) < |fs| then At(fs[FirstNameIndex(fs)].fields, "value", Null) else Null)
  {
    var cs := Iter(At(call.fields, "context", Array([]))).value;
    ScanContextsFields(cs);
    ContextFieldsDicts(cs);
    ScanFieldsFirst(ContextFields(cs).value);
  }

  // ---------------------------------------------------------------- filter_account_calls

  /** `name and account_substr.lower() in name.lower()`: both sides need `lower` once the name is truthy. */
  function IsAccountCall(call: Value, account: Value): Result<bool> {
    match CompanyName(call)
    case Err(e) => Err(e)
    case Ok(name) =>
      if !Truthy(name) then Ok(false)
      else if !account.Str? || !name.Str? then Err(AttributeError)
      else Ok(Contains(Lower(name.s), Lower(account.s)))
  }

  /** `filter_account_calls`: the calls whose company name contains the account text, ignoring ASCII case, in input order. */
  method FilterAccountCalls(calls: seq<Value>, account: Value) returns (r: Result<seq<Value>>)
    ensures r == Select(calls, c => IsAccountCall(c, account))
  {
    var out: seq<Value> := [];
    for i := 0 to |calls|
      invariant Select(calls[..i], c => IsAccountCall(c, account)) == Ok(out)
    {
      assert calls[..i + 1][..i] == calls[..i];
      var keep := IsAccountCall(calls[i], account);
      if keep.Err? {
        SelectPrefixErr(calls, c => IsAccountCall(c, account), i + 1);
        return Err(keep.error);
      }
      if keep.value {
        out := out + [calls[i]];
      }
    }
    assert calls[..|calls|] == calls;
    return Ok(out);
  }

  /** A call is kept iff its company name is a string containing the account text, ignoring ASCII case. */
  lemma AccountCallsExactly(calls: seq<Value>, account: Value)
    requires Select(calls, c => IsAccountCall(c, account)).Ok?
    ensures forall c :: c in Select(calls, c => IsAccountCall(c, account)).value <==>
      c in calls && CompanyName(c).Ok? && CompanyName(c).value.Str? && CompanyName(c).value.s != "" &&
      account.Str? && Contains(Lower(CompanyName(c).value.s), Lower(account.s))
  {
    SelectMembers(calls, c => IsAccountCall(c, account));
  }

  // ---------------------------------------------------------------- create_participant_map

  /** What the map stores for a speaker. */
  datatype Info = Info(name: Value, title: Value, affiliation: Value)

  /** A Python dict keyed by speaker id: its entries in insertion order. */
  type Participants = seq<(Value, Info)>

  function Keys(mp: Participants): seq<Value> {
    seq(|mp|, i requires 0 <= i < |mp| => mp[i].0)
  }

  /** `mp.get(k)`. */
  function Lookup(mp: Participants, k: Value): Option<Info> {
    if mp == [] then None else if mp[0].0 == k then Some(mp[0].1) else Lookup(mp[1..], k)
  }

  /** `mp[k] = info`: an existing key keeps its place and takes the new value; a new key goes last. */
  function Put(mp: Participants, k: Value, info: Info): Participants {
    if mp == [] then [(k, info)]
    else if mp[0].0 == k then [(k, info)] + mp[1..]
    else [mp[0]] + Put(mp[1..], k, info)
  }

  /** No key occurs twice. */
  predicate UniqueKeys(mp: Participants) {
    forall i, j :: 0 <= i < j < |mp| ==> mp[i].0 != mp[j].0
  }

  /** Assigning a key changes the lookup of that key only, keeps the keys unique and appends only new keys. */
  lemma PutSpec(mp: Participants, k: Value, info: Info)
    requires UniqueKeys(mp)
    ensures UniqueKeys(Put(mp, k, info))
    ensures forall k' :: Lookup(Put(mp, k, info), k') == if k' == k then Some(info) else Lookup(mp, k')
    ensures Keys(Put(mp, k, info)) == if k in Keys(mp) then Keys(mp) else Keys(mp) + [k]
  {
    PutKeys(mp, k, info);
    PutUnique(mp, k, info);
    PutLookup(mp, k, info);
  }

  lemma {:induction false} PutKeys(mp: Participants, k: Value, info: Info)
    ensures Keys(Put(mp, k, info)) == if k in Keys(mp) then Keys(mp) else Keys(mp) + [k]
  {
    if mp != [] {
      var rest := mp[1..];
      assert Keys(mp) == [mp[0].0] + Keys(rest);
      if mp[0].0 == k {
        assert Keys(Put(mp, k, info)) == [k] + Keys(rest);
      } else {
        PutKeys(rest, k, info);
        var put := Put(rest, k, info);
        assert Keys([mp[0]] + put) == [mp[0].0] + Keys(put);
      }
    }
  }

  lemma PutUnique(mp: Participants, k: Value, info: Info)
    requires UniqueKeys(mp)
    ensures UniqueKeys(Put(mp, k, info))
  {
    PutKeys(mp, k, info);
    var put := Put(mp, k, info);
    assert forall i :: 0 <= i < |put| ==> put[i].0 == Keys(put)[i];
    assert forall i :: 0 <= i < |mp| ==> mp[i].0 == Keys(mp)[i];
  }

  lemma {:induction false} PutLookup(mp: Participants, k: Value, info: Info)
    requires UniqueKeys(mp)
    ensures forall k' :: Lookup(Put(mp, k, info), k') == if k' == k then Some(info) else Lookup(mp, k')
  {
    if mp != [] {
      var rest := mp[1..];
      assert UniqueKeys(rest) by { assert forall i :: 0 <= i < |rest| ==> rest[i] == mp[i + 1]; }
      if mp[0].0 == k {
        assert k !in Keys(rest) by { assert forall i :: 0 <= i < |rest| ==> Keys(rest)[i] == mp[i + 1].0; }
        LookupAbsent(rest, k);
      } else {
        PutLookup(rest, k, info);
      }
    }
  }

  lemma {:induction false} LookupAbsent(mp: Participants, k: Value)
    requires k !in Keys(mp)
    ensures Lookup(mp, k).None?
  {
    if mp != [] {
      assert Keys(mp)[0] == mp[0].0;
      assert Keys(mp[1..]) == Keys(mp)[1..];
      LookupAbsent(mp[1..], k);
    }
  }

  /** The entry one party contributes: none without a truthy speaker id; an unhashable id raises. */
  function PartyEntry(p: Value): Result<Option<(Value, Info)>> {
    if !p.Object? then Err(AttributeError)
    else
      var sid := At(p.fields, "speakerId", Null);
      if !Truthy(sid) then Ok(None)
      else if !Hashable(sid) then Err(TypeError)
      else Ok(Some((sid, PartyInfo(p))))
  }

  /** The info stored for a party, with the script's defaults for missing fields. */
  function PartyInfo(p: Value): Info
    requires p.Object?
  {
    Info(At(p.fields, "name", Str("Unknown")), At(p.fields, "title", Str("No Title")),
         At(p.fields, "affiliation", Str("Unknown")))
  }

  /** Party `p` is a dict whose speaker id is truthy and equal to `k`. */
  predicate HasSid(p: Value, k: Value) {
    p.Object? && Truthy(At(p.fields, "speakerId", Null)) && At(p.fields, "speakerId", Null) == k
  }

  /** The info of the last party whose speaker id is `k`. */
  function LastParty(parties: seq<Value>, k: Value): Option<Info>
    decreases |parties|
  {
    if parties == [] then None
    else if HasSid(parties[|parties| - 1], k) then Some(PartyInfo(parties[|parties| - 1]))
    else LastParty(parties[..|parties| - 1], k)
  }

  /** The entries of the parties, in order. */
  function Entries(parties: seq<Value>): Result<seq<(Value, Info)>>
    decreases |parties|
  {
    if parties == [] then Ok([])
    else
      match Entries(parties[..|parties| - 1])
      case Err(e) => Err(e)
      case Ok(es) =>
        match PartyEntry(parties[|parties| - 1])
        case Err(e) => Err(e)
        case Ok(None) => Ok(es)
        case Ok(Some(entry)) => Ok(es + [entry])
  }

  /** The dict built by assigning the entries one after another. */
  function Assign(es: seq<(Value, Info)>): Participants
    decreases |es|
  {
    if es == [] then [] else Put(Assign(es[..|es| - 1]), es[|es| - 1].0, es[|es| - 1].1)
  }

  /** `create_participant_map(call)`. */
  function ParticipantMap(call: Value): Result<Participants> {
    if !call.Object? then Err(AttributeError)
    else
      match Iter(At(call.fields, "parties", Array([])))
      case Err(e) => Err(e)
      case Ok(ps) =>
        match Entries(ps)
        case Err(e) => Err(e)
        case Ok(es) => Ok(Assign(es))
  }

  /** The info of the last entry with key `k`. */
  function LastInfo(es: seq<(Value, Info)>, k: Value): Option<Info>
    decreases |es|
  {
    if es == [] then None
    else if es[|es| - 1].0 == k then Some(es[|es| - 1].1)
    else LastInfo(es[..|es| - 1], k)
  }

  function EntryKeys(es: seq<(Value, Info)>): set<Value> {
    set e | e in es :: e.0
  }

  /**
   * The speaker map holds each key once; a key is present iff some entry has
   * it, and it maps to the info of the LAST entry with that key.
   */
  lemma {:induction false} AssignSpec(es: seq<(Value, Info)>)
    ensures UniqueKeys(Assign(es))
    ensures forall k :: k in Keys(Assign(es)) <==> k in EntryKeys(es)
    ensures forall k :: Lookup(Assign(es), k) == LastInfo(es, k)
  {
    if es != [] {
      var init := es[..|es| - 1];
      var last := es[|es| - 1];
      AssignSpec(init);
      var m := Assign(init);
      PutSpec(m, last.0, last.1);
      assert Assign(es) == Put(m, last.0, last.1);
      assert es == init + [last];
      assert EntryKeys(es) == EntryKeys(init) + {last.0};
      forall k ensures k in Keys(Assign(es)) <==> k in Keys(m) || k == last.0 {
      }
      forall k ensures LastInfo(es, k) == if k == last.0 then Some(last.1) else LastInfo(init, k) {
      }
    }
  }

  /** Every entry comes from a party with a truthy, hashable speaker id, with the script's defaults. */
  lemma {:induction false} EntriesSpec(parties: seq<Value>)
    requires Entries(parties).Ok?
    ensures forall e :: e in Entries(parties).value ==>
      (Truthy(e.0) && Hashable(e.0) &&
       exists i :: 0 <= i < |parties| && HasSid(parties[i], e.0) && e.1 == PartyInfo(parties[i]))
  {
    if parties != [] {
      var init := parties[..|parties| - 1];
      EntriesSpec(init);
      assert forall i :: 0 <= i < |init| ==> init[i] == parties[i];
    }
  }

  /** The info `k` is given last in the list of parties, on either side of the list of entries. */
  lemma {:induction false} LastPartySpec(parties: seq<Value>, k: Value)
    ensures LastParty(parties, k).Some? <==> exists i :: 0 <= i < |parties| && HasSid(parties[i], k)
    ensures LastParty(parties, k).Some? ==>
      exists i :: 0 <= i < |parties| && HasSid(parties[i], k) && LastParty(parties, k).value == PartyInfo(parties[i]) &&
        forall j :: i < j < |parties| ==> !HasSid(parties[j], k)
    decreases |parties|
  {
    if parties != [] {
      var init := parties[..|parties| - 1];
      LastPartySpec(init, k);
      assert forall i :: 0 <= i < |init| ==> init[i] == parties[i];
    }
  }

  /** The last entry for a key is the last party with that speaker id. */
  lemma {:induction false} EntriesLast(parties: seq<Value>)
    requires Entries(parties).Ok?
    ensures forall k :: LastInfo(Entries(parties).value, k) == LastParty(parties, k)
    decreases |parties|
  {
    if parties != [] {
      var init := parties[..|parties| - 1];
      EntriesLast(init);
      var es := Entries(init).value;
      var entry := PartyEntry(parties[|parties| - 1]);
      if entry.value.Some? {
        var es' := es + [entry.value.value];
        assert es'[..|es'| - 1] == es;
      }
    }
  }

  /** A key is in the lookup order exactly when it has a lookup. */
  lemma {:induction false} LookupKeys(mp: Participants, k: Value)
    ensures Lookup(mp, k).Some? <==> k in Keys(mp)
  {
    if mp != [] {
      assert Keys(mp) == [mp[0].0] + Keys(mp[1..]);
      LookupKeys(mp[1..], k);
    }
  }

  /**
   * When `create_participant_map` returns, its dict has each key once; a key
   * is present iff some party has that truthy speaker id, and maps to the
   * info of the last such party.
   */
  lemma ParticipantMapSpec(call: Value)
    requires ParticipantMap(call).Ok?
    ensures var parties := Iter(At(call.fields, "parties", Array([]))).value;
      var mp := ParticipantMap(call).value;
      UniqueKeys(mp) &&
      (forall k :: k in Keys(mp) <==> exists i :: 0 <= i < |parties| && HasSid(parties[i], k)) &&
      forall k :: Lookup(mp, k) == LastParty(parties, k)
  {
    var parties := Iter(At(call.fields, "parties", Array([]))).value;
    var es := Entries(parties).value;
    var mp := ParticipantMap(call).value;
    AssignSpec(es);
    EntriesLast(parties);
    forall k ensures k in Keys(mp) <==> exists i :: 0 <= i < |parties| && HasSid(parties[i], k) {
      LookupKeys(mp, k);
      LastPartySpec(parties, k);
    }
  }

  /** `create_participant_map`, one party at a time. */
  method CreateParticipantMap(call: Value) returns (r: Result<Participants>)
    ensures r == ParticipantMap(call)
  {
    if !call.Object? {
      return Err(AttributeError);
    }
    var it := Iter(At(call.fields, "parties", Array([])));
    if it.Err? {
      return Err(it.error);
    }
    var ps := it.value;
    var mp: Participants := [];
    ghost var es: seq<(Value, Info)> := [];
    for i := 0 to |ps|
      invariant Entries(ps[..i]) == Ok(es) && mp == Assign(es)
    {
      assert ps[..i + 1][..i] == ps[..i];
      var entry := PartyEntry(ps[i]);
      if entry.Err? {
        EntriesPrefixErr(ps, i + 1);
        return Err(entry.error);
      }
      if entry.value.Some? {
        var (sid, info) := entry.value.value;
        mp := Put(mp, sid, info);
        es := es + [(sid, info)];
      }
    }
    assert ps[..|ps|] == ps;
    return Ok(mp);
  }

  lemma {:induction false} EntriesPrefixErr(ps: seq<Value>, i: nat)
    requires i <= |ps| && Entries(ps[..i]).Err?
    ensures Entries(ps) == Entries(ps[..i])
    decreases |ps| - i
  {
    if i < |ps| {
      assert ps[..i + 1][..i] == ps[..i];
      EntriesPrefixErr(ps, i + 1);
    } else {
      assert ps[..i] == ps;
    }
  }

  // ---------------------------------------------------------------- flatten_transcript

  function ParticipantLine(info: Info, dictRepr: map<string, Value> -> string): string {
    "- " + PyStr(info.name, dictRepr) + " (" + PyStr(info.title, dictRepr) + ") – " + PyStr(info.affiliation, dictRepr)
  }

  /** The header: call id, title, date, duration, one line per participant in map order, then "Transcript:". */
  function HeaderLines(meta: map<string, Value>, people: Participants, dictRepr: map<string, Value> -> string): seq<string> {
    ["Call ID: " + PyStr(At(meta, "id", Null), dictRepr),
     "Title: " + PyStr(At(meta, "title", Null), dictRepr),
     "Date: " + PyStr(At(meta, "started", Null), dictRepr),
     "Duration: " + PyStr(At(meta, "duration", Null), dictRepr) + " seconds",
     "",
     "Participants:"]
    + seq(|people|, i requires 0 <= i < |people| => ParticipantLine(people[i].1, dictRepr))
    + ["", "Transcript:"]
  }

  function TopicLine(tname: string): string {
    "\nTopic: " + tname
  }

  function SentenceLine(speaker: string, txt: string): string {
    speaker + ": " + txt
  }

  /** A dict whose `text`, missing or present, is a string. */
  predicate HasText(sentence: Value) {
    sentence.Object? && At(sentence.fields, "text", Str("")).Str?
  }

  /** `sentence.get("text", "")` when it is a string. */
  function RawText(sentence: Value): string
    requires HasText(sentence)
  {
    At(sentence.fields, "text", Str("")).s
  }

  /** `sentence.get("text", "").strip()`: a non-dict has no `get`, a non-string text no `strip`. */
  function SentenceText(sentence: Value): Result<string> {
    if HasText(sentence) then Ok(PyStrip(RawText(sentence))) else Err(AttributeError)
  }

  /** The lines of a topic's sentences: one per sentence whose stripped text is not empty. */
  function SentenceLines(sentences: seq<Value>, speaker: string): Result<seq<string>>
    decreases |sentences|
  {
    if sentences == [] then Ok([])
    else
      match SentenceLines(sentences[..|sentences| - 1], speaker)
      case Err(e) => Err(e)
      case Ok(ls) =>
        match SentenceText(sentences[|sentences| - 1])
        case Err(e) => Err(e)
        case Ok(txt) => Ok(if txt != "" then ls + [SentenceLine(speaker, txt)] else ls)
  }

  /** The speaker a topic is attributed to: the map's name, or "Unknown" for an id the map lacks. */
  function Speaker(people: Participants, sid: Value): Value {
    match Lookup(people, sid)
    case Some(info) => info.name
    case None => Str("Unknown")
  }

  /** The lines one topic contributes: its "Topic:" line, then its sentence lines. */
  function TopicBlock(topic: Value, people: Participants, dictRepr: map<string, Value> -> string): Result<seq<string>> {
    if !topic.Object? then Err(AttributeError)
    else
      var sid := At(topic.fields, "speakerId", Null);
      if !Hashable(sid) then Err(TypeError)
      else
        var speaker := PyStr(Speaker(people, sid), dictRepr);
        match Iter(At(topic.fields, "sentences", Array([])))
        case Err(e) => Err(e)
        case Ok(ss) =>
          match SentenceLines(ss, speaker)
          case Err(e) => Err(e)
          case Ok(ls) => Ok([TopicLine(PyStr(At(topic.fields, "topic", Str("Unnamed Topic")), dictRepr))] + ls)
  }

  /** The topic loop: each topic's lines after the previous ones; the first topic that raises aborts. */
  function TopicBlocks(topics: seq<Value>, people: Participants, dictRepr: map<string, Value> -> string): Result<seq<string>> {
    Chain(topics, BlockFn(people, dictRepr))
  }

  /** `TopicBlock` as the function the topic loop applies. */
  function BlockFn(people: Participants, dictRepr: map<string, Value> -> string): Value -> Result<seq<string>> {
    t => TopicBlock(t, people, dictRepr)
  }

  /** The lines of `f` over `xs`, concatenated in order; the first failure aborts. */
  function Chain<T>(xs: seq<T>, f: T -> Result<seq<string>>): Result<seq<string>>
    decreases |xs|
  {
    if xs == [] then Ok([])
    else
      match Chain(xs[..|xs| - 1], f)
      case Err(e) => Err(e)
      case Ok(ls) =>
        match f(xs[|xs| - 1])
        case Err(e) => Err(e)
        case Ok(b) => Ok(ls + b)
  }

  /** The lines of a successful result, nothing for a failure. */
  function LinesOf(r: Result<seq<string>>): seq<string> {
    if r.Ok? then r.value else []
  }

  /** The lines of each element, in order. */
  function AllLines<T>(xs: seq<T>, f: T -> Result<seq<string>>): (r: seq<seq<string>>)
    ensures |r| == |xs| && forall i :: 0 <= i < |xs| ==> r[i] == LinesOf(f(xs[i]))
  {
    seq(|xs|, i requires 0 <= i < |xs| => LinesOf(f(xs[i])))
  }

  /** A successful chain succeeds on every element and is the concatenation of their lines. */
  lemma {:induction false} ChainFlatten<T>(xs: seq<T>, f: T -> Result<seq<string>>)
    requires Chain(xs, f).Ok?
    ensures forall i :: 0 <= i < |xs| ==> f(xs[i]).Ok?
    ensures Chain(xs, f).value == Flatten(AllLines(xs, f))
  {
    if xs != [] {
      var n := |xs| - 1;
      var init := xs[..n];
      ChainFlatten(init, f);
      var bs := AllLines(xs, f);
      var bi := AllLines(init, f);
      assert bs[..n] == bi by {
        assert forall k :: 0 <= k < n ==> init[k] == xs[k];
      }
      assert Flatten(bs) == Flatten(bs[..n]) + bs[n];
      assert forall i :: 0 <= i < n ==> xs[i] == init[i];
    }
  }

  /** Once a prefix fails, the whole chain fails with that error. */
  lemma {:induction false} ChainPrefixErr<T>(xs: seq<T>, f: T -> Result<seq<string>>, i: nat)
    requires i <= |xs| && Chain(xs[..i], f).Err?
    ensures Chain(xs, f) == Chain(xs[..i], f)
    decreases |xs| - i
  {
    if i < |xs| {
      assert xs[..i + 1][..i] == xs[..i];
      ChainPrefixErr(xs, f, i + 1);
    } else {
      assert xs[..i] == xs;
    }
  }

  /** `flatten_transcript(transcript, call)`: the header and topic lines joined by newlines. */
  function TranscriptText(transcript: Value, call: Value, dictRepr: map<string, Value> -> string): Result<string> {
    if !call.Object? then Err(AttributeError)
    else
      var meta := At(call.fields, "metaData", Object(map[]));
      match ParticipantMap(call)
      case Err(e) => Err(e)
      case Ok(people) =>
        if !meta.Object? || !transcript.Object? then Err(AttributeError)
        else
          match Iter(At(transcript.fields, "transcript", Array([])))
          case Err(e) => Err(e)
          case Ok(topics) =>
            match TopicBlocks(topics, people, dictRepr)
            case Err(e) => Err(e)
            case Ok(body) => Ok(Join(HeaderLines(meta.fields, people, dictRepr) + body, "\n"))
  }

  /** A stripped, non-blank text. */
  predicate Stripped(t: string) {
    t != "" && t[0] !in PySpace && t[|t| - 1] !in PySpace
  }

  /** The stripped text of each sentence, when every sentence has one. */
  function Texts(sentences: seq<Value>): (ts: seq<string>)
    requires forall i :: 0 <= i < |sentences| ==> HasText(sentences[i])
    ensures |ts| == |sentences|
  {
    seq(|sentences|, i requires 0 <= i < |sentences| => PyStrip(RawText(sentences[i])))
  }

  /** The positions of the non-empty texts: increasing, and exactly those whose text is not empty. */
  function NonEmptyIndices(ts: seq<string>): (r: seq<nat>)
    ensures forall j :: 0 <= j < |r| ==> r[j] < |ts| && ts[r[j]] != ""
    ensures forall j, j' :: 0 <= j < j' < |r| ==> r[j] < r[j']
    ensures forall i :: 0 <= i < |ts| && ts[i] != "" ==> i in r
    decreases |ts|
  {
    if ts == [] then []
    else
      var init := ts[..|ts| - 1];
      assert forall i :: 0 <= i < |init| ==> init[i] == ts[i];
      NonEmptyIndices(init) + (if ts[|ts| - 1] != "" then [|ts| - 1] else [])
  }

  /**
   * When the sentence loop finishes, every sentence had a string text, and
   * the lines are, in order, the speaker, ": " and the stripped text of each
   * sentence whose stripped text is not empty; each such text is stripped.
   */
  lemma SentenceLinesShape(sentences: seq<Value>, speaker: string)
    requires SentenceLines(sentences, speaker).Ok?
    ensures forall i :: 0 <= i < |sentences| ==> HasText(sentences[i])
    ensures var ls := SentenceLines(sentences, speaker).value;
      var ts := Texts(sentences);
      var at := NonEmptyIndices(ts);
      |ls| == |at| && forall j :: 0 <= j < |ls| ==> ls[j] == SentenceLine(speaker, ts[at[j]])
    ensures |SentenceLines(sentences, speaker).value| <= |sentences|
    ensures forall line :: line in SentenceLines(sentences, speaker).value ==>
      exists t :: line == SentenceLine(speaker, t) && Stripped(t)
  {
    SentenceLinesExact(sentences, speaker);
    SentenceLinesStripped(sentences, speaker);
  }

  lemma SentenceLinesExact(sentences: seq<Value>, speaker: string)
    requires SentenceLines(sentences, speaker).Ok?
    ensures forall i :: 0 <= i < |sentences| ==> HasText(sentences[i])
    ensures var ls := SentenceLines(sentences, speaker).value;
      var ts := Texts(sentences);
      var at := NonEmptyIndices(ts);
      |ls| == |at| && forall j :: 0 <= j < |ls| ==> ls[j] == SentenceLine(speaker, ts[at[j]])
  {
    SentenceTextsOk(sentences, speaker);
    var ts := Texts(sentences);
    SentenceLinesOfTexts(sentences, ts, speaker);
    TextLinesExact(ts, speaker);
  }

  lemma SentenceTextsOk(sentences: seq<Value>, speaker: string)
    requires SentenceLines(sentences, speaker).Ok?
    ensures forall i :: 0 <= i < |sentences| ==> HasText(sentences[i])
  {
    forall i | 0 <= i < |sentences|
      ensures HasText(sentences[i])
    {
      SentenceHasText(sentences, speaker, i);
    }
  }

  lemma SentenceHasText(sentences: seq<Value>, speaker: string, i: nat)
    requires i < |sentences| && SentenceLines(sentences, speaker).Ok?
    ensures HasText(sentences[i])
  {
    SentenceLinesPrefixOk(sentences, speaker, i + 1);
    var pre := sentences[..i + 1];
    assert pre[i] == sentences[i];
    LastSentenceOk(pre, speaker);
  }

  lemma LastSentenceOk(sentences: seq<Value>, speaker: string)
    requires sentences != [] && SentenceLines(sentences, speaker).Ok?
    ensures HasText(sentences[|sentences| - 1])
  {
  }

  lemma {:induction false} SentenceLinesPrefixOk(sentences: seq<Value>, speaker: string, k: nat)
    requires k <= |sentences| && SentenceLines(sentences, speaker).Ok?
    ensures SentenceLines(sentences[..k], speaker).Ok?
    decreases |sentences|
  {
    if k == |sentences| {
      assert sentences[..k] == sentences;
    } else {
      var n := |sentences| - 1;
      SentenceLinesPrefixOk(sentences[..n], speaker, k);
      assert sentences[..n][..k] == sentences[..k];
    }
  }

  /** The sentence loop over texts already stripped. */
  function TextLines(ts: seq<string>, speaker: string): seq<string>
    decreases |ts|
  {
    if ts == [] then []
    else TextLines(ts[..|ts| - 1], speaker) + (if ts[|ts| - 1] != "" then [SentenceLine(speaker, ts[|ts| - 1])] else [])
  }

  lemma {:induction false} SentenceLinesOfTexts(sentences: seq<Value>, ts: seq<string>, speaker: string)
    requires |ts| == |sentences|
    requires forall i :: 0 <= i < |sentences| ==> HasText(sentences[i]) && ts[i] == PyStrip(RawText(sentences[i]))
    ensures SentenceLines(sentences, speaker) == Ok(TextLines(ts, speaker))
    decreases |sentences|
  {
    if sentences != [] {
      var n := |sentences| - 1;
      var init := sentences[..n];
      forall i | 0 <= i < n
        ensures HasText(init[i]) && ts[..n][i] == PyStrip(RawText(init[i]))
      {
        assert init[i] == sentences[i];
      }
      SentenceLinesOfTexts(init, ts[..n], speaker);
      SentenceLinesSnoc(sentences, ts, speaker);
    }
  }

  /** The last sentence's line, if any, follows those of the sentences before it. */
  lemma SentenceLinesSnoc(sentences: seq<Value>, ts: seq<string>, speaker: string)
    requires |sentences| == |ts| > 0
    requires var n := |ts| - 1;
      SentenceLines(sentences[..n], speaker) == Ok(TextLines(ts[..n], speaker))
    requires HasText(sentences[|ts| - 1]) && ts[|ts| - 1] == PyStrip(RawText(sentences[|ts| - 1]))
    ensures SentenceLines(sentences, speaker) == Ok(TextLines(ts, speaker))
  {
    var n := |ts| - 1;
    var t := ts[n];
    var ls := TextLines(ts[..n], speaker);
    assert SentenceText(sentences[n]) == Ok(t);
    assert SentenceLines(sentences, speaker) == Ok(if t != "" then ls + [SentenceLine(speaker, t)] else ls);
    assert TextLines(ts, speaker) == if t != "" then ls + [SentenceLine(speaker, t)] else ls;
  }

  lemma {:induction false} TextLinesExact(ts: seq<string>, speaker: string)
    ensures var ls := TextLines(ts, speaker);
      var at := NonEmptyIndices(ts);
      |ls| == |at| && forall j :: 0 <= j < |ls| ==> ls[j] == SentenceLine(speaker, ts[at[j]])
    decreases |ts|
  {
    if ts != [] {
      var n := |ts| - 1;
      var init := ts[..n];
      TextLinesExact(init, speaker);
      var ls0 := TextLines(init, speaker);
      var at0 := NonEmptyIndices(init);
      var ls := TextLines(ts, speaker);
      var at := NonEmptyIndices(ts);
      forall j | 0 <= j < |ls0|
        ensures ls[j] == SentenceLine(speaker, ts[at[j]])
      {
        assert ls[j] == ls0[j] && at[j] == at0[j] && ts[at0[j]] == init[at0[j]];
      }
    }
  }

  lemma {:induction false} SentenceLinesStripped(sentences: seq<Value>, speaker: string)
    requires SentenceLines(sentences, speaker).Ok?
    ensures |SentenceLines(sentences, speaker).value| <= |sentences|
    ensures forall line :: line in SentenceLines(sentences, speaker).value ==>
      exists t :: line == SentenceLine(speaker, t) && Stripped(t)
    decreases |sentences|
  {
    if sentences != [] {
      SentenceLinesStripped(sentences[..|sentences| - 1], speaker);
      var txt := SentenceText(sentences[|sentences| - 1]);
      if txt.value != "" {
        assert Stripped(txt.value);
      }
    }
  }

  /**
   * A topic's block opens with its single "Topic:" line and continues with
   * sentence lines of the topic's speaker, "Unknown" when the speaker id is
   * not in the map.
   */
  lemma TopicBlockShape(topic: Value, people: Participants, dictRepr: map<string, Value> -> string)
    requires TopicBlock(topic, people, dictRepr).Ok?
    ensures var b := TopicBlock(topic, people, dictRepr).value;
      var sid := At(topic.fields, "speakerId", Null);
      |b| >= 1 && b[0] == TopicLine(PyStr(At(topic.fields, "topic", Str("Unnamed Topic")), dictRepr)) &&
      (Lookup(people, sid).None? ==> Speaker(people, sid) == Str("Unknown")) &&
      forall line :: line in b[1..] ==> exists t :: line == SentenceLine(PyStr(Speaker(people, sid), dictRepr), t) && Stripped(t)
  {
    var sid := At(topic.fields, "speakerId", Null);
    var ss := Iter(At(topic.fields, "sentences", Array([]))).value;
    SentenceLinesShape(ss, PyStr(Speaker(people, sid), dictRepr));
    var b := TopicBlock(topic, people, dictRepr).value;
    assert b[1..] == SentenceLines(ss, PyStr(Speaker(people, sid), dictRepr)).value;
  }

  /** A topic's block, or nothing for a topic that raises. */
  function BlockOf(topic: Value, people: Participants, dictRepr: map<string, Value> -> string): seq<string> {
    LinesOf(TopicBlock(topic, people, dictRepr))
  }

  /** Each topic's block, in order. */
  function Blocks(topics: seq<Value>, people: Participants, dictRepr: map<string, Value> -> string): (r: seq<seq<string>>)
    ensures |r| == |topics| && forall i :: 0 <= i < |topics| ==> r[i] == BlockOf(topics[i], people, dictRepr)
  {
    seq(|topics|, i requires 0 <= i < |topics| => BlockOf(topics[i], people, dictRepr))
  }

  /** The transcript body is the topics' blocks in order, so it has one "Topic:" line per topic at the blocks' heads. */
  lemma TopicBlocksConcat(topics: seq<Value>, people: Participants, dictRepr: map<string, Value> -> string)
    requires TopicBlocks(topics, people, dictRepr).Ok?
    ensures forall i :: 0 <= i < |topics| ==> TopicBlock(topics[i], people, dictRepr).Ok?
    ensures TopicBlocks(topics, people, dictRepr).value == Flatten(Blocks(topics, people, dictRepr))
  {
    var f := BlockFn(people, dictRepr);
    ChainFlatten(topics, f);
    assert AllLines(topics, f) == Blocks(topics, people, dictRepr);
  }

  /** `flatten_transcript`: the header lines, then the topic loop. */
  method FlattenTranscript(transcript: Value, call: Value, dictRepr: map<string, Value> -> string) returns (r: Result<string>)
    ensures r == TranscriptText(transcript, call, dictRepr)
  {
    if !call.Object? {
      return Err(AttributeError);
    }
    var meta := At(call.fields, "metaData", Object(map[]));
    var people := CreateParticipantMap(call);
    if people.Err? {
      return Err(people.error);
    }
    if !meta.Object? || !transcript.Object? {
      return Err(AttributeError);
    }
    var it := Iter(At(transcript.fields, "transcript", Array([])));
    if it.Err? {
      return Err(it.error);
    }
    var body := AppendTopics(it.value, people.value, dictRepr);
    if body.Err? {
      return Err(body.error);
    }
    return Ok(Join(HeaderLines(meta.fields, people.value, dictRepr) + body.value, "\n"));
  }

  /** The topic loop, appending each topic's block. */
  method AppendTopics(topics: seq<Value>, people: Participants, dictRepr: map<string, Value> -> string) returns (r: Result<seq<string>>)
    ensures r == TopicBlocks(topics, people, dictRepr)
  {
    var lines: seq<string> := [];
    for i := 0 to |topics|
      invariant TopicBlocks(topics[..i], people, dictRepr) == Ok(lines)
    {
      assert topics[..i + 1][..i] == topics[..i];
      var block := AppendTopic(topics[i], people, dictRepr);
      if block.Err? {
        ChainPrefixErr(topics, BlockFn(people, dictRepr), i + 1);
        return Err(block.error);
      }
      lines := lines + block.value;
    }
    assert topics[..|topics|] == topics;
    return Ok(lines);
  }

  /** One iteration of the topic loop: the "Topic:" line, then the sentence loop. */
  method AppendTopic(topic: Value, people: Participants, dictRepr: map<string, Value> -> string) returns (r: Result<seq<string>>)
    ensures r == TopicBlock(topic, people, dictRepr)
  {
    if !topic.Object? {
      return Err(AttributeError);
    }
    var sid := At(topic.fields, "speakerId", Null);
    if !Hashable(sid) {
      return Err(TypeError);
    }
    var speaker := PyStr(Speaker(people, sid), dictRepr);
    var head := TopicLine(PyStr(At(topic.fields, "topic", Str("Unnamed Topic")), dictRepr));
    var it := Iter(At(topic.fields, "sentences", Array([])));
    if it.Err? {
      return Err(it.error);
    }
    var ls := AppendSentences(it.value, speaker);
    if ls.Err? {
      return Err(ls.error);
    }
    return Ok([head] + ls.value);
  }

  /** The sentence loop of one topic, appending a line per non-blank sentence. */
  method AppendSentences(ss: seq<Value>, speaker: string) returns (r: Result<seq<string>>)
    ensures r == SentenceLines(ss, speaker)
  {
    var lines: seq<string> := [];
    for i := 0 to |ss|
      invariant SentenceLines(ss[..i], speaker) == Ok(lines)
    {
      var txt := SentenceText(ss[i]);
      SentenceLinesStep(ss, speaker, i);
      if txt.Err? {
        SentenceLinesPrefixErr(ss, speaker, i + 1);
        return Err(txt.error);
      }
      if txt.value != "" {
        lines := lines + [SentenceLine(speaker, txt.value)];
      }
    }
    assert ss[..|ss|] == ss;
    return Ok(lines);
  }

  /** One more sentence: its stripped text, when not blank, extends the lines of the ones before. */
  lemma SentenceLinesStep(ss: seq<Value>, speaker: string, i: nat)
    requires i < |ss|
    ensures var prev, txt := SentenceLines(ss[..i], speaker), SentenceText(ss[i]);
      SentenceLines(ss[..i + 1], speaker) ==
        if prev.Err? then prev
        else if txt.Err? then Err(txt.error)
        else Ok(if txt.value != "" then prev.value + [SentenceLine(speaker, txt.value)] else prev.value)
  {
    assert ss[..i + 1][..i] == ss[..i];
    assert ss[..i + 1][i] == ss[i];
  }

  lemma {:induction false} SentenceLinesPrefixErr(ss: seq<Value>, speaker: string, i: nat)
    requires i <= |ss| && SentenceLines(ss[..i], speaker).Err?
    ensures SentenceLines(ss, speaker) == SentenceLines(ss[..i], speaker)
    decreases |ss| - i
  {
    if i < |ss| {
      assert ss[..i + 1][..i] == ss[..i];
      SentenceLinesPrefixErr(ss, speaker, i + 1);
    } else {
      assert ss[..i] == ss;
    }
  }

  // ---------------------------------------------------------------- duration filter

  /** A value Python compares as a number (`bool` is an `int`); `num` reads a JSON number's text. */
  function Numeric(v: Value, num: string -> real): Option<real> {
    match v
    case Number(t) => Some(num(t))
    case Bool(b) => Some(if b then 1.0 else 0.0)
    case _ => None
  }

  /** `a < b`: numbers numerically, strings by code point; other operands raise. */
  function PyLess(a: Value, b: Value, num: string -> real): Result<bool> {
    if Numeric(a, num).Some? && Numeric(b, num).Some? then Ok(Numeric(a, num).value < Numeric(b, num).value)
    else if a.Str? && b.Str? then Ok(Less(a.s, b.s))
    else Err(TypeError)
  }

  /** `c.get("metaData", {}).get("duration", 0)`. */
  function Duration(call: Value): Result<Value> {
    if !call.Object? then Err(AttributeError)
    else
      var meta := At(call.fields, "metaData", Object(map[]));
      if !meta.Object? then Err(AttributeError) else Ok(At(meta.fields, "duration", Number("0")))
  }

  /**
   * A call survives the filter unless it is below a given minimum or above a
   * given maximum (`Null` is no bound). For numeric durations and bounds it is
   * kept iff min ≤ duration ≤ max for the bounds that are given; a call
   * without a duration counts as 0.
   */
  function InWindow(call: Value, minDur: Value, maxDur: Value, num: string -> real): (r: Result<bool>)
    ensures (Duration(call).Ok? && Numeric(Duration(call).value, num).Some? &&
             (minDur == Null || Numeric(minDur, num).Some?) && (maxDur == Null || Numeric(maxDur, num).Some?)) ==>
      var d := Numeric(Duration(call).value, num).value;
      r == Ok((minDur == Null || Numeric(minDur, num).value <= d) && (maxDur == Null || d <= Numeric(maxDur, num).value))
    ensures Duration(call).Ok? && "duration" !in At(call.fields, "metaData", Object(map[])).fields ==>
      Duration(call).value == Number("0")
  {
    match Duration(call)
    case Err(e) => Err(e)
    case Ok(dur) =>
      var below := if minDur == Null then Ok(false) else PyLess(dur, minDur, num);
      if below.Err? then Err(below.error)
      else if below.value then Ok(false)
      else
        var above := if maxDur == Null then Ok(false) else PyLess(maxDur, dur, num);
        if above.Err? then Err(above.error) else Ok(!above.value)
  }

  /** The duration loop of `main`. */
  method DurationFilter(calls: seq<Value>, minDur: Value, maxDur: Value, num: string -> real) returns (r: Result<seq<Value>>)
    ensures r == Select(calls, c => InWindow(c, minDur, maxDur, num))
  {
    var out: seq<Value> := [];
    for i := 0 to |calls|
      invariant Select(calls[..i], c => InWindow(c, minDur, maxDur, num)) == Ok(out)
    {
      assert calls[..i + 1][..i] == calls[..i];
      var keep := InWindow(calls[i], minDur, maxDur, num);
      if keep.Err? {
        SelectPrefixErr(calls, c => InWindow(c, minDur, maxDur, num), i + 1);
        return Err(keep.error);
      }
      if keep.value {
        out := out + [calls[i]];
      }
    }
    assert calls[..|calls|] == calls;
    return Ok(out);
  }

  // ---------------------------------------------------------------- main, up to the model client

  /** Where `main` stands after selecting transcripts. */
  datatype Stage =
    | EmptyResult                    // prints EmptyDataLine and returns
    | Summarize(matched: seq<Value>) // goes on to summarise these transcripts with a model client

  const MissingAccount := "ValueError: Missing 'account' in input"
  /** Python 3 raises `EnvironmentError` as `OSError`, its alias, and names it so. */
  const MissingKey := "OSError: export GEMINI_API_KEY first"

  /** The JSON of the empty result, as `json.dumps` writes it. */
  const EmptyPayload := "{\"status\": \"empty\", \"message\": \"No transcripts located\"}"
  const EmptyDataLine := ScriptRunner.DataPrefix + EmptyPayload

  /** The runner reads the empty result as a data line carrying the JSON, unless a schema rejects it. */
  lemma EmptyLineIsData(hasSchema: bool, valid: string -> bool)
    requires !hasSchema || valid(EmptyPayload)
    ensures ScriptRunner.Classify(EmptyDataLine, hasSchema, valid) == ScriptRunner.DataLine(EmptyPayload)
  {
    assert EmptyDataLine[..|ScriptRunner.DataPrefix|] == ScriptRunner.DataPrefix;
    assert EmptyDataLine[|ScriptRunner.DataPrefix|..] == EmptyPayload;
  }

  /** `c["metaData"]["id"]`, which must exist and be hashable to enter the id set. */
  function CallId(call: Value): Result<Value> {
    if !call.Object? then Err(TypeError)
    else if "metaData" !in call.fields then Err(KeyError)
    else
      var meta := call.fields["metaData"];
      if !meta.Object? then Err(TypeError)
      else if "id" !in meta.fields then Err(KeyError)
      else if !Hashable(meta.fields["id"]) then Err(TypeError)
      else Ok(meta.fields["id"])
  }

  /** `{c["metaData"]["id"] for c in calls}`. */
  function CallIds(calls: seq<Value>): Result<set<Value>>
    decreases |calls|
  {
    if calls == [] then Ok({})
    else
      match CallIds(calls[..|calls| - 1])
      case Err(e) => Err(e)
      case Ok(ids) =>
        match CallId(calls[|calls| - 1])
        case Err(e) => Err(e)
        case Ok(id) => Ok(ids + {id})
  }

  lemma {:induction false} CallIdsMembers(calls: seq<Value>)
    requires CallIds(calls).Ok?
    ensures forall id :: id in CallIds(calls).value <==> exists c :: c in calls && CallId(c) == Ok(id)
  {
    if calls != [] {
      var init := calls[..|calls| - 1];
      CallIdsMembers(init);
      assert calls == init + [calls[|calls| - 1]];
    }
  }

  /** `t.get("callId") in ids`. */
  function HasCallId(t: Value, ids: set<Value>): Result<bool> {
    if !t.Object? then Err(AttributeError)
    else
      var id := At(t.fields, "callId", Null);
      if !Hashable(id) then Err(TypeError) else Ok(id in ids)
  }

  /** The calls that survive the duration filter, which runs only when a bound is given. */
  function Durations(calls: seq<Value>, minDur: Value, maxDur: Value, num: string -> real): Result<seq<Value>> {
    if minDur != Null || maxDur != Null then Select(calls, c => InWindow(c, minDur, maxDur, num)) else Ok(calls)
  }

  /**
   * `main` from reading the input up to creating the model client: the
   * account filter, the optional duration filter and transcript matching.
   * `apiKey` is `GEMINI_API_KEY`, "" when unset; only a run with matched
   * transcripts reads it.
   */
  function MainSelection(inp: Value, calls: seq<Value>, transcripts: seq<Value>, num: string -> real, apiKey: string): (r: Result<Stage>)
    ensures inp.Object? && !Truthy(At(inp.fields, "account", Null)) ==> r == Err(MissingAccount)
    ensures r == Ok(EmptyResult) || (r.Ok? ==> apiKey != "" && r.value.matched != [])
  {
    if !inp.Object? then Err(AttributeError)
    else
      var account := At(inp.fields, "account", Null);
      if !Truthy(account) then Err(MissingAccount)
      else
        match Select(calls, c => IsAccountCall(c, account))
        case Err(e) => Err(e)
        case Ok(byAccount) =>
          match Durations(byAccount, At(inp.fields, "min_duration", Null), At(inp.fields, "max_duration", Null), num)
          case Err(e) => Err(e)
          case Ok(kept) =>
            match CallIds(kept)
            case Err(e) => Err(e)
            case Ok(ids) =>
              match Select(transcripts, t => HasCallId(t, ids))
              case Err(e) => Err(e)
              case Ok(matched) =>
                if matched == [] then Ok(EmptyResult)
                else if apiKey == "" then Err(MissingKey)
                else Ok(Summarize(matched))
  }

  /** `main` up to the client, with the script's loops. */
  method SelectTranscripts(inp: Value, calls: seq<Value>, transcripts: seq<Value>, num: string -> real, apiKey: string) returns (r: Result<Stage>)
    ensures r == MainSelection(inp, calls, transcripts, num, apiKey)
  {
    if !inp.Object? {
      return Err(AttributeError);
    }
    var account := At(inp.fields, "account", Null);
    if !Truthy(account) {
      return Err(MissingAccount);
    }
    var byAccount := FilterAccountCalls(calls, account);
    if byAccount.Err? {
      return Err(byAccount.error);
    }
    var kept := byAccount.value;
    var minDur := At(inp.fields, "min_duration", Null);
    var maxDur := At(inp.fields, "max_duration", Null);
    if minDur != Null || maxDur != Null {
      var filtered := DurationFilter(kept, minDur, maxDur, num);
      if filtered.Err? {
        return Err(filtered.error);
      }
      kept := filtered.value;
    }
    var ids := CallIds(kept);
    if ids.Err? {
      return Err(ids.error);
    }
    var matched := Select(transcripts, t => HasCallId(t, ids.value));
    if matched.Err? {
      return Err(matched.error);
    }
    if matched.value == [] {
      return Ok(EmptyResult);
    }
    if apiKey == "" {
      return Err(MissingKey);
    }
    return Ok(Summarize(matched.value));
  }

  /** The empty result does not depend on the API key: `main` returns before any client exists. */
  lemma EmptyNeedsNoKey(inp: Value, calls: seq<Value>, transcripts: seq<Value>, num: string -> real, key1: string, key2: string)
    requires MainSelection(inp, calls, transcripts, num, key1) == Ok(EmptyResult)
    ensures MainSelection(inp, calls, transcripts, num, key2) == Ok(EmptyResult)
  {
  }

  /**
   * Every transcript handed on to the model is one of the input transcripts
   * whose call id is the id of a call that passed the account filter.
   */
  lemma MatchedTranscripts(inp: Value, calls: seq<Value>, transcripts: seq<Value>, num: string -> real, apiKey: string)
    requires MainSelection(inp, calls, transcripts, num, apiKey).Ok?
    requires MainSelection(inp, calls, transcripts, num, apiKey).value.Summarize?
    ensures forall t :: t in MainSelection(inp, calls, transcripts, num, apiKey).value.matched ==>
      t in transcripts && t.Object? &&
      (exists c :: c in calls && IsAccountCall(c, At(inp.fields, "account", Null)) == Ok(true) &&
                   CallId(c) == Ok(At(t.fields, "callId", Null)))
  {
    var account := At(inp.fields, "account", Null);
    var byAccount := Select(calls, c => IsAccountCall(c, account)).value;
    var minDur := At(inp.fields, "min_duration", Null);
    var maxDur := At(inp.fields, "max_duration", Null);
    var kept := Durations(byAccount, minDur, maxDur, num).value;
    var ids := CallIds(kept).value;
    var matched := Select(transcripts, t => HasCallId(t, ids)).value;
    assert MainSelection(inp, calls, transcripts, num, apiKey).value.matched == matched;
    KeptFromAccount(calls, account, minDur, maxDur, num);
    CallIdsMembers(kept);
    SelectMembers(transcripts, t => HasCallId(t, ids));
    forall t | t in matched
      ensures t in transcripts && t.Object? &&
        exists c :: c in calls && IsAccountCall(c, account) == Ok(true) && CallId(c) == Ok(At(t.fields, "callId", Null))
    {
      assert HasCallId(t, ids) == Ok(true);
      var c :| c in kept && CallId(c) == Ok(At(t.fields, "callId", Null));
      assert c in calls && IsAccountCall(c, account) == Ok(true);
    }
  }

  /** The calls left after both filters passed the account filter. */
  lemma KeptFromAccount(calls: seq<Value>, account: Value, minDur: Value, maxDur: Value, num: string -> real)
    requires Select(calls, c => IsAccountCall(c, account)).Ok?
    requires Durations(Select(calls, c => IsAccountCall(c, account)).value, minDur, maxDur, num).Ok?
    ensures forall c :: c in Durations(Select(calls, c => IsAccountCall(c, account)).value, minDur, maxDur, num).value ==>
      c in calls && IsAccountCall(c, account) == Ok(true)
  {
    var byAccount := Select(calls, c => IsAccountCall(c, account)).value;
    SelectMembers(calls, c => IsAccountCall(c, account));
    if minDur != Null || maxDur != Null {
      SelectMembers(byAccount, c => InWindow(c, minDur, maxDur, num));
    }
  }
}
