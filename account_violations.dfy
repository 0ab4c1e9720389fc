/**
 * The compliance summary of scripts/rcrainfo_account_violations/main.py:
 * the look-back window, the windowed evaluation / violation / enforcement
 * views joined to the matched facilities, the per-contact metrics of
 * `build_metrics` and the contact and account rows built from them. The
 * trend helpers are in ComplianceTrends.
 */
module ComplianceMetrics {
  import opened Wrappers
  import opened Strs
  import ComplianceTrends

  // ---------------------------------------------------------------- dates and the window

  /** An RCRAInfo date: eight digits, YYYYMMDD. */
  type DateText = s: string | |s| == 8 && AllDigits(s) witness "00000000"

  /** `SUBSTR(d, 1, 4)::INT`. */
  function Year(d: DateText): nat {
    DigitsValue(d[..4])
  }

  /** `CAST(d AS INT)`. */
  function DateValue(d: DateText): nat {
    DigitsValue(d)
  }

  datatype Window = Window(yearMin: int, yearMax: int, begin: string, end: string)

  /** The window: from `currentYear - lookback` to the last complete year, as 'YYYY0101'..'YYYY1231'. */
  function MakeWindow(currentYear: int, lookback: int): Window {
    var lo := currentYear - lookback;
    var hi := currentYear - 1;
    Window(lo, hi, IntToString(lo) + "0101", IntToString(hi) + "1231")
  }

  /** `d BETWEEN begin AND end` on text. */
  predicate InWindow(w: Window, d: string) {
    LessEq(w.begin, d) && LessEq(d, w.end)
  }

  function Pow10(n: nat): (p: nat)
    ensures p >= 1
  {
    if n == 0 then 1 else 10 * Pow10(n - 1)
  }

  lemma {:induction false} DigitsBound(s: string)
    requires AllDigits(s)
    ensures DigitsValue(s) < Pow10(|s|)
  {
    if |s| > 0 {
      DigitsBound(s[..|s| - 1]);
    }
  }

  /** The value of a concatenation of digit strings. */
  lemma {:induction false} DigitsConcat(p: string, q: string)
    requires AllDigits(p) && AllDigits(q)
    ensures AllDigits(p + q)
    ensures DigitsValue(p + q) == DigitsValue(p) * Pow10(|q|) + DigitsValue(q)
    decreases |q|
  {
    assert AllDigits(p + q) by {
      forall i | 0 <= i < |p + q| ensures IsDigit((p + q)[i]) {
        if i >= |p| { assert (p + q)[i] == q[i - |p|]; }
      }
    }
    if q == [] {
      assert p + q == p;
    } else {
      var init := q[..|q| - 1];
      DigitsConcat(p, init);
      assert (p + q)[..|p + q| - 1] == p + init;
      calc {
        DigitsValue(p + q);
        DigitsValue(p + init) * 10 + (q[|q| - 1] as int - '0' as int);
        (DigitsValue(p) * Pow10(|init|) + DigitsValue(init)) * 10 + (q[|q| - 1] as int - '0' as int);
        { MulAssoc(DigitsValue(p), Pow10(|init|), 10); }
        DigitsValue(p) * Pow10(|q|) + DigitsValue(q);
      }
    }
  }

  lemma MulAssoc(a: nat, b: nat, c: nat)
    ensures (a * b) * c == a * (b * c) && b * c == c * b
  {
  }

  /** The first digit carries the weight of the remaining length. */
  lemma DigitsFront(s: string)
    requires AllDigits(s) && |s| > 0
    ensures DigitsValue(s) == (s[0] as int - '0' as int) * Pow10(|s| - 1) + DigitsValue(s[1..])
  {
    var h, t := s[..1], s[1..];
    assert h[..0] == [];
    assert DigitsValue(h) == s[0] as int - '0' as int;
    assert h + t == s;
    DigitsConcat(h, t);
  }

  lemma {:induction false} MulAtLeast(k: nat, p: nat)
    requires k >= 1
    ensures k * p >= p
  {
    if k > 1 {
      MulAtLeast(k - 1, p);
      assert k * p == (k - 1) * p + p;
    }
  }

  lemma ScaleLess(a: nat, b: nat, p: nat, x: nat, y: nat)
    requires a < b && x < p && p >= 1
    ensures a * p + x < b * p + y
  {
    MulAtLeast(b - a, p);
    assert b * p == a * p + (b - a) * p;
  }

  /** For digit strings of one length, text order is numeric order. */
  lemma {:induction false} DigitsOrder(a: string, b: string)
    requires AllDigits(a) && AllDigits(b) && |a| == |b|
    ensures LessEq(a, b) <==> DigitsValue(a) <= DigitsValue(b)
  {
    if |a| > 0 {
      DigitsFront(a);
      DigitsFront(b);
      DigitsBound(a[1..]);
      DigitsBound(b[1..]);
      var p := Pow10(|a| - 1);
      var da := a[0] as int - '0' as int;
      var db := b[0] as int - '0' as int;
      if a[0] == b[0] {
        DigitsOrder(a[1..], b[1..]);
      } else if a[0] < b[0] {
        ScaleLess(da, db, p, DigitsValue(a[1..]), DigitsValue(b[1..]));
      } else {
        ScaleLess(db, da, p, DigitsValue(b[1..]), DigitsValue(a[1..]));
      }
    }
  }

  lemma DateSplit(d: DateText)
    ensures AllDigits(d[4..]) && DateValue(d) == Year(d) * 10000 + DigitsValue(d[4..])
  {
    DigitsConcat(d[..4], d[4..]);
    assert d[..4] + d[4..] == d;
  }

  lemma MonthDayValues()
    ensures AllDigits("0101") && DigitsValue("0101") == 101
    ensures AllDigits("1231") && DigitsValue("1231") == 1231
  {
    assert "0101"[..3] == "010" && "010"[..2] == "01" && "01"[..1] == "0" && "0"[..0] == "";
    assert "1231"[..3] == "123" && "123"[..2] == "12" && "12"[..1] == "1" && "1"[..0] == "";
  }

  lemma BoundValue(year: nat, md: string)
    requires 1000 <= year <= 9999 && AllDigits(md) && |md| == 4
    ensures var s := IntToString(year) + md; |s| == 8 && AllDigits(s) && DigitsValue(s) == year * 10000 + DigitsValue(md)
  {
    FourDigits(year);
    DigitsConcat(NatToString(year), md);
  }

  /**
   * The window covers exactly `lookback` calendar years, and for four-digit
   * window years and a date whose month-day part lies in 0101..1231 the text
   * comparison puts the date in the window exactly when its year is in
   * `yearMin..yearMax`.
   */
  lemma DateInWindow(currentYear: int, lookback: int, d: DateText)
    requires lookback >= 1 && 1000 <= currentYear - lookback && currentYear <= 10000
    requires 101 <= DigitsValue(d[4..]) <= 1231
    ensures var w := MakeWindow(currentYear, lookback);
      w.yearMax - w.yearMin + 1 == lookback &&
      (InWindow(w, d) <==> w.yearMin <= Year(d) <= w.yearMax)
  {
    var w := MakeWindow(currentYear, lookback);
    var lo := currentYear - lookback;
    var hi := currentYear - 1;
    MonthDayValues();
    BoundValue(lo, "0101");
    BoundValue(hi, "1231");
    DigitsOrder(w.begin, d);
    DigitsOrder(d, w.end);
    DateSplit(d);
  }

  // ---------------------------------------------------------------- calendar days

  function Month(d: DateText): nat {
    DigitsValue(d[4..6])
  }

  function Day(d: DateText): nat {
    DigitsValue(d[6..])
  }

  /**
   * Days from 1970-01-01 to a proleptic Gregorian date: the day number that
   * `STRPTIME(d, '%Y%m%d')` denotes and `DATE_DIFF('day', ...)` subtracts.
   */
  function CivilDays(y: int, m: int, d: int): int {
    var y1 := if m <= 2 then y - 1 else y;
    var era := y1 / 400;
    var yoe := y1 - era * 400;
    var mp := (m + 9) % 12;
    var doy := (153 * mp + 2) / 5 + d - 1;
    var doe := yoe * 365 + yoe / 4 - yoe / 100 + doy;
    era * 146097 + doe - 719468
  }

  function DayNumber(d: DateText): int {
    CivilDays(Year(d), Month(d), Day(d))
  }

  lemma CivilDaysFacts(y: int, m: int, d1: int, d2: int)
    ensures CivilDays(1970, 1, 1) == 0
    ensures CivilDays(y, m, d2) - CivilDays(y, m, d1) == d2 - d1
  {
  }

  // ---------------------------------------------------------------- days_to_resolve

  /**
   * `days_to_resolve` as the violation query writes it:
   * `DATE_DIFF('day', STRPTIME(rtc), STRPTIME(determined))`, that is the
   * determined day minus the return-to-compliance day, NULL when either date
   * is NULL.
   */
  function DaysToResolveAsWritten(rtc: Option<DateText>, determined: Option<DateText>): Option<int> {
    if rtc.Some? && determined.Some? then Some(DayNumber(determined.value) - DayNumber(rtc.value)) else None
  }

  /** The days from the determination to the return to compliance, NULL when either date is NULL. */
  function DaysToResolve(rtc: Option<DateText>, determined: Option<DateText>): Option<int> {
    if rtc.Some? && determined.Some? then Some(DayNumber(rtc.value) - DayNumber(determined.value)) else None
  }

  /**
   * Both versions are NULL exactly when a date is NULL; otherwise they are
   * opposite, and the intended one counts forward: it is non-negative exactly
   * when compliance was returned on or after the determination.
   */
  lemma DaysToResolveSpec(rtc: Option<DateText>, determined: Option<DateText>)
    ensures DaysToResolve(rtc, determined).None? <==> rtc.None? || determined.None?
    ensures DaysToResolveAsWritten(rtc, determined).None? <==> rtc.None? || determined.None?
    ensures DaysToResolve(rtc, determined).Some? ==>
      DaysToResolveAsWritten(rtc, determined) == Some(-DaysToResolve(rtc, determined).value) &&
      (DaysToResolve(rtc, determined).value >= 0 <==> DayNumber(rtc.value) >= DayNumber(determined.value))
  {
  }

  lemma DateParts(d: DateText, y: string, m: string, dd: string)
    requires d == y + m + dd && |y| == 4 && |m| == 2 && |dd| == 2
    ensures d[..4] == y && d[4..6] == m && d[6..] == dd
  {
  }

  /**
   * A violation determined on 2024-01-01 and resolved on 2024-01-31 comes out at -30 days as
   * written; EndOfJanuary and StartOfJanuary show that the texts 20240131 and 20240101 are such dates.
   */
  lemma ResolvedInThirtyDays(rtc: DateText, determined: DateText)
    requires Year(rtc) == 2024 && Month(rtc) == 1 && Day(rtc) == 31
    requires Year(determined) == 2024 && Month(determined) == 1 && Day(determined) == 1
    ensures DaysToResolveAsWritten(Some(rtc), Some(determined)) == Some(-30)
    ensures DaysToResolve(Some(rtc), Some(determined)) == Some(30)
  {
    CivilDaysFacts(2024, 1, 1, 31);
  }

  lemma EndOfJanuary()
    ensures Year("20240131") == 2024 && Month("20240131") == 1 && Day("20240131") == 31
  {
    DateParts("20240131", "2024", "01", "31");
    assert "2024"[..3] == "202" && "202"[..2] == "20" && "20"[..1] == "2" && "2"[..0] == "";
    assert "01"[..1] == "0" && "31"[..1] == "3" && "0"[..0] == "" && "3"[..0] == "";
  }

  lemma StartOfJanuary()
    ensures Year("20240101") == 2024 && Month("20240101") == 1 && Day("20240101") == 1
  {
    DateParts("20240101", "2024", "01", "01");
    assert "2024"[..3] == "202" && "202"[..2] == "20" && "20"[..1] == "2" && "2"[..0] == "";
    assert "01"[..1] == "0" && "0"[..0] == "";
  }

  // ---------------------------------------------------------------- tables

  /** The account columns copied from a match. */
  datatype Profile = Profile(
    accountName: Option<string>, tier2025: Option<string>, parentAccountId: Option<string>,
    parentAccount: Option<string>, accountOwner: Option<string>, bdaOwner: Option<string>,
    csOwner: Option<string>)

  /** A row of `account_matched_facilities`. */
  datatype Matched = Matched(
    handlerId: Option<string>, accountId: Option<string>, profile: Profile,
    contactEmailAddress: Option<string>)

  datatype EvalColumns = EvalColumns(
    activityLocation: Option<string>, identifier: Option<string>, startDate: Option<DateText>,
    agency: Option<string>, typeDesc: Option<string>, foundViolation: Option<string>)

  datatype ViolColumns = ViolColumns(
    activityLocation: Option<string>, violSeq: Option<string>, determinedByAgency: Option<string>,
    determinedDate: Option<DateText>, actualRtcDate: Option<DateText>, shortDesc: Option<string>)

  datatype EnfColumns = EnfColumns(
    activityLocation: Option<string>, identifier: Option<string>, actionDate: Option<DateText>,
    agency: Option<string>, typeDesc: Option<string>, finalAmount: Option<string>)

  /** A row of `ce_reporting`, restricted to the columns the views read. */
  datatype Report = Report(handlerId: Option<string>, eval: EvalColumns, viol: ViolColumns, enf: EnfColumns)

  const NoEmail := "(no email)"

  /** The enrichment columns of a view row. */
  datatype Who = Who(accountId: string, profile: Profile, contactEmail: string)

  /** A match with a non-NULL account id, its contact email defaulted by COALESCE. */
  function WhoOf(m: Matched): Option<Who> {
    match m.accountId
    case None => None
    case Some(acc) =>
      Some(Who(acc, m.profile, match m.contactEmailAddress case Some(e) => e case None => NoEmail))
  }

  /** `JOIN ... USING (handler_id)`: equal and non-NULL. */
  predicate Joins(r: Report, m: Matched) {
    r.handlerId.Some? && r.handlerId == m.handlerId
  }

  datatype Detail =
    | Evaluation(evalType: Option<string>, foundViolation: Option<string>)
    | Violation(shortDesc: Option<string>, daysToResolve: Option<int>)
    | Enforcement(enfType: Option<string>, penalty: Option<real>)

  /** A row of a windowed view: its key, its date, the account columns and the view's own columns. */
  datatype Event = Event(pk: string, date: DateText, who: Who, detail: Detail)

  datatype Kind = Evaluations | Violations | Enforcements

  /** The date each view filters on and derives `*_date_i` and `*_year` from. */
  function EventDate(kind: Kind, r: Report): Option<DateText> {
    match kind
    case Evaluations => r.eval.startDate
    case Violations => r.viol.determinedDate
    case Enforcements => r.enf.actionDate
  }

  function Present(parts: seq<Option<string>>): (r: seq<string>)
    ensures forall s :: s in r <==> Some(s) in parts
  {
    if |parts| == 0 then []
    else (match parts[0] case Some(s) => [s] case None => []) + Present(parts[1..])
  }

  /** `CONCAT_WS(sep, ...)`: the non-NULL parts joined by `sep`. */
  function ConcatWs(sep: string, parts: seq<Option<string>>): string {
    Join(Present(parts), sep)
  }

  function Text(d: Option<DateText>): Option<string> {
    match d case Some(x) => Some(x) case None => None
  }

  /** The synthetic key of each view. */
  function Key(kind: Kind, r: Report): string {
    match kind
    case Evaluations =>
      ConcatWs("|", [r.handlerId, r.eval.activityLocation, r.eval.identifier, Text(r.eval.startDate), r.eval.agency])
    case Violations =>
      ConcatWs("|", [r.handlerId, r.viol.activityLocation, r.viol.violSeq, r.viol.determinedByAgency])
    case Enforcements =>
      ConcatWs("|", [r.handlerId, r.enf.activityLocation, r.enf.identifier, Text(r.enf.actionDate), r.enf.agency])
  }

  /**
   * `CAST(NULLIF(final_amount, '') AS DOUBLE)`, with the text-to-double cast
   * as a parameter; a text it rejects fails the whole query.
   */
  function Penalty(toDouble: string -> Option<real>, amount: Option<string>): Result<Option<real>> {
    match amount
    case None => Ok(None)
    case Some(t) =>
      if t == "" then Ok(None)
      else match toDouble(t)
        case None => Err("ConversionException")
        case Some(x) => Ok(Some(x))
  }

  /** The projection of one joined pair. */
  function MakeEvent(kind: Kind, toDouble: string -> Option<real>, r: Report, d: DateText, who: Who): Result<Event> {
    match kind
    case Evaluations =>
      Ok(Event(Key(kind, r), d, who, Evaluation(r.eval.typeDesc, r.eval.foundViolation)))
    case Violations =>
      Ok(Event(Key(kind, r), d, who, Violation(r.viol.shortDesc, DaysToResolve(r.viol.actualRtcDate, r.viol.determinedDate))))
    case Enforcements =>
      match Penalty(toDouble, r.enf.finalAmount)
      case Err(e) => Err(e)
      case Ok(p) => Ok(Event(Key(kind, r), d, who, Enforcement(r.enf.typeDesc, p)))
  }

  /** The projection as the violation query writes it, with `days_to_resolve` counted backwards. */
  function MakeEventAsWritten(kind: Kind, toDouble: string -> Option<real>, r: Report, d: DateText, who: Who): Result<Event> {
    if kind == Violations then
      Ok(Event(Key(kind, r), d, who, Violation(r.viol.shortDesc, DaysToResolveAsWritten(r.viol.actualRtcDate, r.viol.determinedDate))))
    else MakeEvent(kind, toDouble, r, d, who)
  }

  /** A row with its `days_to_resolve`, if any, negated. */
  function NegateDays(e: Event): Event {
    match e.detail
    case Violation(desc, Some(x)) => e.(detail := Violation(desc, Some(-x)))
    case _ => e
  }

  /**
   * The written projection differs from the model's only in the sign of
   * `days_to_resolve`: same success or failure, same key, date and columns.
   */
  lemma EventAsWritten(kind: Kind, toDouble: string -> Option<real>, r: Report, d: DateText, who: Who)
    ensures MakeEventAsWritten(kind, toDouble, r, d, who).Err? <==> MakeEvent(kind, toDouble, r, d, who).Err?
    ensures MakeEvent(kind, toDouble, r, d, who).Ok? ==>
      MakeEventAsWritten(kind, toDouble, r, d, who).value == NegateDays(MakeEvent(kind, toDouble, r, d, who).value)
  {
    DaysToResolveSpec(r.viol.actualRtcDate, r.viol.determinedDate);
  }

  /** A pair of the join that passes the WHERE clause (account present, date in the window), projected. */
  function PairOf(kind: Kind, w: Window, toDouble: string -> Option<real>, r: Report, m: Matched): Option<Result<Event>> {
    if !Joins(r, m) then None
    else match WhoOf(m)
      case None => None
      case Some(who) =>
        match EventDate(kind, r)
        case None => None
        case Some(d) => if InWindow(w, d) then Some(MakeEvent(kind, toDouble, r, d, who)) else None
  }

  function JoinRow(kind: Kind, w: Window, toDouble: string -> Option<real>, r: Report, ms: seq<Matched>): (out: seq<Result<Event>>)
    ensures forall x :: x in out <==> exists m :: m in ms && PairOf(kind, w, toDouble, r, m) == Some(x)
  {
    if |ms| == 0 then []
    else
      var rest := JoinRow(kind, w, toDouble, r, ms[1..]);
      assert forall m :: m in ms <==> m == ms[0] || m in ms[1..];
      match PairOf(kind, w, toDouble, r, ms[0])
      case None => rest
      case Some(x) => [x] + rest
  }

  /** Every projected pair of the join, reports in order and matches in order within each. */
  function Joined(kind: Kind, w: Window, toDouble: string -> Option<real>, rs: seq<Report>, ms: seq<Matched>): (out: seq<Result<Event>>)
    ensures forall x :: x in out <==> exists r, m :: r in rs && m in ms && PairOf(kind, w, toDouble, r, m) == Some(x)
  {
    if |rs| == 0 then []
    else
      var rest := Joined(kind, w, toDouble, rs[1..], ms);
      assert forall r :: r in rs <==> r == rs[0] || r in rs[1..];
      JoinRow(kind, w, toDouble, rs[0], ms) + rest
  }

  function Oks(xs: seq<Result<Event>>): (r: seq<Event>)
    ensures forall e :: e in r <==> Ok(e) in xs
  {
    if |xs| == 0 then []
    else (match xs[0] case Ok(e) => [e] case Err(_) => []) + Oks(xs[1..])
  }

  function Keys(rows: seq<Event>): set<string> {
    set e | e in rows :: e.pk
  }

  predicate UniqueKeys(rows: seq<Event>) {
    forall i, j :: 0 <= i < j < |rows| ==> rows[i].pk != rows[j].pk
  }

  /**
   * `DISTINCT ON (pk)`: one row per key, each drawn from the input, every
   * key of the input kept. Which row of a key survives is unspecified in
   * SQL; this keeps the first.
   */
  function FirstPerKey(rows: seq<Event>): (r: seq<Event>)
    ensures UniqueKeys(r)
    ensures forall e :: e in r ==> e in rows
    ensures Keys(r) == Keys(rows)
  {
    if |rows| == 0 then []
    else
      var init := rows[..|rows| - 1];
      var last := rows[|rows| - 1];
      var p := FirstPerKey(init);
      assert rows == init + [last];
      assert Keys(rows) == Keys(init) + {last.pk};
      if last.pk in Keys(p) then p
      else
        assert Keys(p + [last]) == Keys(p) + {last.pk};
        p + [last]
  }

  /** A windowed view; a failed cast fails it. */
  function View(kind: Kind, w: Window, toDouble: string -> Option<real>, rs: seq<Report>, ms: seq<Matched>): Result<seq<Event>> {
    var joined := Joined(kind, w, toDouble, rs, ms);
    if exists x :: x in joined && x.Err? then Err("ConversionException")
    else Ok(FirstPerKey(Oks(joined)))
  }

  /**
   * A view fails only for an enforcement amount the cast rejects; otherwise it
   * holds at most one row per key, each the projection of a joined pair with
   * its date in the window, and every key of a qualifying pair.
   */
  lemma ViewSpec(kind: Kind, w: Window, toDouble: string -> Option<real>, rs: seq<Report>, ms: seq<Matched>)
    ensures View(kind, w, toDouble, rs, ms).Err? <==>
      kind == Enforcements &&
      exists r, m :: r in rs && m in ms && PairOf(kind, w, toDouble, r, m).Some? && PairOf(kind, w, toDouble, r, m).value.Err?
    ensures View(kind, w, toDouble, rs, ms).Ok? ==>
      var v := View(kind, w, toDouble, rs, ms).value;
      UniqueKeys(v) &&
      (forall e :: e in v ==> InWindow(w, e.date) && exists r, m :: r in rs && m in ms && PairOf(kind, w, toDouble, r, m) == Some(Ok(e))) &&
      (forall r, m :: r in rs && m in ms && PairOf(kind, w, toDouble, r, m).Some? ==> PairOf(kind, w, toDouble, r, m).value.value.pk in Keys(v))
  {
    ViewFails(kind, w, toDouble, rs, ms);
    if View(kind, w, toDouble, rs, ms).Ok? {
      ViewRows(kind, w, toDouble, rs, ms);
      ViewKeys(kind, w, toDouble, rs, ms);
    }
  }

  lemma ViewFails(kind: Kind, w: Window, toDouble: string -> Option<real>, rs: seq<Report>, ms: seq<Matched>)
    ensures View(kind, w, toDouble, rs, ms).Err? <==>
      kind == Enforcements &&
      exists r, m :: r in rs && m in ms && PairOf(kind, w, toDouble, r, m).Some? && PairOf(kind, w, toDouble, r, m).value.Err?
  {
  }

  lemma ViewRows(kind: Kind, w: Window, toDouble: string -> Option<real>, rs: seq<Report>, ms: seq<Matched>)
    requires View(kind, w, toDouble, rs, ms).Ok?
    ensures var v := View(kind, w, toDouble, rs, ms).value;
      UniqueKeys(v) &&
      (forall e :: e in v ==> InWindow(w, e.date) && exists r, m :: r in rs && m in ms && PairOf(kind, w, toDouble, r, m) == Some(Ok(e)))
  {
  }

  lemma ViewKeys(kind: Kind, w: Window, toDouble: string -> Option<real>, rs: seq<Report>, ms: seq<Matched>)
    requires View(kind, w, toDouble, rs, ms).Ok?
    ensures var v := View(kind, w, toDouble, rs, ms).value;
      forall r, m :: r in rs && m in ms && PairOf(kind, w, toDouble, r, m).Some? ==> PairOf(kind, w, toDouble, r, m).value.value.pk in Keys(v)
  {
    var joined := Joined(kind, w, toDouble, rs, ms);
    var v := FirstPerKey(Oks(joined));
    forall r, m | r in rs && m in ms && PairOf(kind, w, toDouble, r, m).Some?
      ensures PairOf(kind, w, toDouble, r, m).value.value.pk in Keys(v)
    {
      var x := PairOf(kind, w, toDouble, r, m).value;
      assert x in joined;
      assert x.value in Oks(joined);
      assert x.value.pk in Keys(Oks(joined));
    }
  }

  // ---------------------------------------------------------------- slices and counts

  /** `contact_email == @email and account_id == @acc`; a missing email equals no row. */
  predicate Selected(who: Who, email: Option<string>, acc: string) {
    email == Some(who.contactEmail) && who.accountId == acc
  }

  function Slice(rows: seq<Event>, email: Option<string>, acc: string): (r: seq<Event>)
    ensures forall e :: e in r <==> e in rows && Selected(e.who, email, acc)
    ensures |rows| > 0 && Selected(rows[0].who, email, acc) ==> |r| > 0 && r[0] == rows[0]
  {
    if |rows| == 0 then []
    else (if Selected(rows[0].who, email, acc) then [rows[0]] else []) + Slice(rows[1..], email, acc)
  }

  lemma {:induction false} KeysCount(rows: seq<Event>)
    ensures |Keys(rows)| <= |rows|
    ensures UniqueKeys(rows) ==> |Keys(rows)| == |rows|
  {
    if |rows| > 0 {
      var init := rows[..|rows| - 1];
      var last := rows[|rows| - 1];
      KeysCount(init);
      assert rows == init + [last];
      assert Keys(rows) == Keys(init) + {last.pk};
      if UniqueKeys(rows) {
        assert UniqueKeys(init);
        assert last.pk !in Keys(init);
      }
    }
  }

  lemma {:induction false} SubsetCount(a: set<string>, b: set<string>)
    requires a <= b
    ensures |a| <= |b|
  {
    if a != {} {
      var x :| x in a;
      SubsetCount(a - {x}, b - {x});
    }
  }

  predicate Hit(e: Event) {
    e.detail.Evaluation? && e.detail.foundViolation == Some("Y")
  }

  /** The evaluations that found a violation (`found_violation == 'Y'`). */
  function Hits(rows: seq<Event>): (r: seq<Event>)
    ensures forall e :: e in r <==> e in rows && Hit(e)
  {
    if |rows| == 0 then [] else (if Hit(rows[0]) then [rows[0]] else []) + Hits(rows[1..])
  }

  function Days(e: Event): Option<int> {
    if e.detail.Violation? then e.detail.daysToResolve else None
  }

  /** `days_to_resolve.isna().sum()`. */
  function OpenCount(rows: seq<Event>): nat {
    if |rows| == 0 then 0 else (if Days(rows[0]).None? then 1 else 0) + OpenCount(rows[1..])
  }

  /** `days_to_resolve.dropna()`. */
  function Resolved(rows: seq<Event>): (r: seq<int>)
    ensures forall x :: x in r <==> exists e :: e in rows && Days(e) == Some(x)
  {
    if |rows| == 0 then []
    else
      var rest := Resolved(rows[1..]);
      assert forall e :: e in rows <==> e == rows[0] || e in rows[1..];
      (match Days(rows[0]) case Some(x) => [x] case None => []) + rest
  }

  /** Each row is open or resolved. */
  lemma {:induction false} OpenAndResolved(rows: seq<Event>)
    ensures OpenCount(rows) + |Resolved(rows)| == |rows|
  {
    if |rows| > 0 {
      OpenAndResolved(rows[1..]);
    }
  }

  function SumInts(xs: seq<int>): int {
    if |xs| == 0 then 0 else xs[0] + SumInts(xs[1..])
  }

  /** `int(total / n)`: the quotient truncated toward zero. */
  function TruncDiv(total: int, n: int): (q: int)
    requires n > 0
    ensures total >= 0 ==> 0 <= q && q * n <= total < (q + 1) * n
    ensures total < 0 ==> q <= 0 && (q - 1) * n < total <= q * n
  {
    if total >= 0 then
      DivBounds(total, n);
      total / n
    else
      DivBounds(-total, n);
      -((-total) / n)
  }

  /** Euclidean division of a non-negative number brackets it between two multiples of the divisor. */
  lemma DivBounds(a: int, n: int)
    requires a >= 0 && n > 0
    ensures 0 <= a / n && (a / n) * n <= a < (a / n) * n + n
  {
    var q, m := a / n, a % n;
    assert a == q * n + m && 0 <= m < n;
  }

  /** Truncation toward zero is symmetric. */
  lemma TruncDivNeg(total: int, n: int)
    requires n > 0
    ensures TruncDiv(-total, n) == -TruncDiv(total, n)
  {
  }

  /** `int(d.mean())` of the resolved days, None when there are none. */
  function AvgDays(rows: seq<Event>): (r: Option<int>)
    ensures r.None? <==> |Resolved(rows)| == 0
    ensures r.Some? ==> r.value == TruncDiv(SumInts(Resolved(rows)), |Resolved(rows)|)
  {
    var d := Resolved(rows);
    if |d| == 0 then None else Some(TruncDiv(SumInts(d), |d|))
  }

  function NegateAll(rows: seq<Event>): (r: seq<Event>)
    ensures |r| == |rows|
  {
    if |rows| == 0 then [] else [NegateDays(rows[0])] + NegateAll(rows[1..])
  }

  function Negated(xs: seq<int>): (r: seq<int>)
    ensures |r| == |xs|
  {
    if |xs| == 0 then [] else [-xs[0]] + Negated(xs[1..])
  }

  /** Negating every row's days negates the resolved days, in order. */
  lemma {:induction false} ResolvedNegated(rows: seq<Event>)
    ensures Resolved(NegateAll(rows)) == Negated(Resolved(rows))
  {
    if |rows| > 0 {
      var e := rows[0];
      ResolvedNegated(rows[1..]);
      ResolvedCons(NegateDays(e), NegateAll(rows[1..]));
      var head: seq<int> := match Days(e) case Some(x) => [x] case None => [];
      assert Resolved(rows) == head + Resolved(rows[1..]);
      NegatedConcat(head, Resolved(rows[1..]));
      assert (match Days(NegateDays(e)) case Some(x) => [x] case None => []) == Negated(head);
    }
  }

  lemma {:induction false} NegatedConcat(a: seq<int>, b: seq<int>)
    ensures Negated(a + b) == Negated(a) + Negated(b)
  {
    if |a| > 0 {
      assert (a + b)[1..] == a[1..] + b;
      NegatedConcat(a[1..], b);
    } else {
      assert a + b == b;
    }
  }

  lemma ResolvedCons(e: Event, rest: seq<Event>)
    ensures Resolved([e] + rest) == (match Days(e) case Some(x) => [x] case None => []) + Resolved(rest)
  {
    assert ([e] + rest)[1..] == rest;
  }

  lemma {:induction false} SumNegated(xs: seq<int>)
    ensures SumInts(Negated(xs)) == -SumInts(xs)
  {
    if |xs| > 0 {
      SumNegated(xs[1..]);
    }
  }

  /**
   * With `days_to_resolve` as the query writes it, the script's average is
   * the negation of the model's: None for the same rows, otherwise opposite.
   */
  lemma AvgDaysAsWritten(rows: seq<Event>)
    ensures AvgDays(NegateAll(rows)).None? <==> AvgDays(rows).None?
    ensures AvgDays(rows).Some? ==> AvgDays(NegateAll(rows)) == Some(-AvgDays(rows).value)
  {
    ResolvedNegated(rows);
    var d := Resolved(rows);
    var dn := Resolved(NegateAll(rows));
    SumNegated(d);
    assert |dn| == |d| && SumInts(dn) == -SumInts(d);
    if |d| > 0 {
      var total, k := SumInts(d), |d|;
      TruncDivNeg(total, k);
      assert AvgDays(rows) == Some(TruncDiv(total, k));
      assert AvgDays(NegateAll(rows)) == Some(TruncDiv(-total, k));
    }
  }


  /** `int(col.max())` of the integer dates, None for an empty slice. */
  function LastDate(rows: seq<Event>): (r: Option<nat>)
    ensures r.None? <==> |rows| == 0
    ensures r.Some? ==> (exists e :: e in rows && DateValue(e.date) == r.value) && forall e :: e in rows ==> DateValue(e.date) <= r.value
  {
    if |rows| == 0 then None
    else
      var rest := LastDate(rows[1..]);
      assert forall e :: e in rows <==> e == rows[0] || e in rows[1..];
      match rest
      case None => Some(DateValue(rows[0].date))
      case Some(m) => Some(if DateValue(rows[0].date) > m then DateValue(rows[0].date) else m)
  }

  /** `round(100 * hits / evaluations, 1)` before rounding, or 0.0 without evaluations. */
  function HitRate(evaluations: nat, hits: nat): real {
    if evaluations != 0 then 100.0 * hits as real / evaluations as real else 0.0
  }

  lemma HitRateBounds(evaluations: nat, hits: nat)
    requires hits <= evaluations
    ensures 0.0 <= HitRate(evaluations, hits) <= 100.0
    ensures evaluations != 0 ==> HitRate(evaluations, hits) * evaluations as real == 100.0 * hits as real
  {
    if evaluations != 0 {
      var e := evaluations as real;
      var h := hits as real;
      assert 100.0 * h / e <= 100.0 by {
        assert 100.0 * h <= 100.0 * e;
      }
    }
  }

  /** The sum of the non-NULL penalties (`penalty_amt.sum()`, 0 when there are none). */
  function PenaltyTotal(rows: seq<Event>): real {
    if |rows| == 0 then 0.0
    else
      (if rows[0].detail.Enforcement? && rows[0].detail.penalty.Some? then rows[0].detail.penalty.value else 0.0)
      + PenaltyTotal(rows[1..])
  }

  // ---------------------------------------------------------------- groups

  function Category(e: Event): Option<string> {
    match e.detail
    case Evaluation(t, _) => t
    case Violation(t, _) => t
    case Enforcement(t, _) => t
  }

  function Categories(rows: seq<Event>): (r: seq<Option<string>>)
    ensures |r| == |rows| && forall i :: 0 <= i < |rows| ==> r[i] == Category(rows[i])
  {
    if |rows| == 0 then [] else [Category(rows[0])] + Categories(rows[1..])
  }

  /** The rows of one category. */
  function OfType(rows: seq<Event>, t: string): (r: seq<Event>)
    ensures forall e :: e in r <==> e in rows && Category(e) == Some(t)
  {
    if |rows| == 0 then [] else (if Category(rows[0]) == Some(t) then [rows[0]] else []) + OfType(rows[1..], t)
  }

  /** The rows of one year. */
  function AtYear(rows: seq<Event>, y: int): (r: seq<Event>)
    ensures forall e :: e in r <==> e in rows && Year(e.date) == y
  {
    if |rows| == 0 then [] else (if Year(rows[0].date) == y then [rows[0]] else []) + AtYear(rows[1..], y)
  }

  function Count(vals: seq<Option<string>>, t: string): nat {
    if |vals| == 0 then 0 else (if vals[0] == Some(t) then 1 else 0) + Count(vals[1..], t)
  }

  function Counts(vals: seq<Option<string>>, ts: seq<string>): (r: seq<int>)
    ensures |r| == |ts| && forall i :: 0 <= i < |ts| ==> r[i] == Count(vals, ts[i])
  {
    if |ts| == 0 then [] else [Count(vals, ts[0])] + Counts(vals, ts[1..])
  }

  /** `mode().iat[0]`: the smallest of the most frequent non-NULL values; an IndexError when there are none. */
  function Mode(vals: seq<Option<string>>): (r: Result<string>)
    ensures r.Err? ==> r.error == "IndexError"
  {
    var ts := SortedUnique(Present(vals));
    if |ts| == 0 then Err("IndexError")
    else Ok(ts[ComplianceTrends.MaxIndex(Counts(vals, ts))])
  }

  lemma ModeSpec(vals: seq<Option<string>>)
    ensures Mode(vals).Err? <==> forall i :: 0 <= i < |vals| ==> vals[i].None?
    ensures Mode(vals).Ok? ==>
      var m := Mode(vals).value;
      Some(m) in vals &&
      forall t :: Some(t) in vals ==> Count(vals, t) < Count(vals, m) || (Count(vals, t) == Count(vals, m) && LessEq(m, t))
  {
    var ts := SortedUnique(Present(vals));
    if |ts| > 0 {
      assert ts[0] in Present(vals);
      var cs := Counts(vals, ts);
      var k := ComplianceTrends.MaxIndex(cs);
      forall t | Some(t) in vals
        ensures Count(vals, t) < Count(vals, ts[k]) || (Count(vals, t) == Count(vals, ts[k]) && LessEq(ts[k], t))
      {
        assert t in Present(vals);
        ModeBeats(vals, ts, k, t);
      }
    } else {
      NothingPresent(vals);
    }
  }

  /** Without any listed value every entry is NULL. */
  lemma NothingPresent(vals: seq<Option<string>>)
    requires |SortedUnique(Present(vals))| == 0
    ensures forall i :: 0 <= i < |vals| ==> vals[i].None?
  {
    assert forall s :: s !in SortedUnique(Present(vals));
    assert forall s :: Some(s) !in vals;
    forall i | 0 <= i < |vals| ensures vals[i].None? {
      assert vals[i] in vals;
    }
  }

  /** The value at the first maximal count beats or ties-and-precedes every other present value. */
  lemma ModeBeats(vals: seq<Option<string>>, ts: seq<string>, k: nat, t: string)
    requires ts == SortedUnique(Present(vals)) && |ts| > 0 && k == ComplianceTrends.MaxIndex(Counts(vals, ts))
    requires t in ts
    ensures Count(vals, t) < Count(vals, ts[k]) || (Count(vals, t) == Count(vals, ts[k]) && LessEq(ts[k], t))
  {
    var cs := Counts(vals, ts);
    var i :| 0 <= i < |ts| && ts[i] == t;
    assert cs[i] <= cs[k];
    if cs[i] == cs[k] {
      if i > k {
        assert Less(ts[k], ts[i]);
      } else if i == k {
        LessEqRefl(t);
      }
    }
  }

  /** A category's hit rate, `100 * hits / evals` with `evals` the distinct keys of the category. */
  function TypeRate(rows: seq<Event>, t: string): real {
    var g := OfType(rows, t);
    var evals := |Keys(g)|;
    if evals == 0 then 0.0 else 100.0 * |Hits(g)| as real / evals as real
  }

  function TypeRates(rows: seq<Event>, ts: seq<string>): (r: seq<real>)
    ensures |r| == |ts| && forall i :: 0 <= i < |ts| ==> r[i] == TypeRate(rows, ts[i])
  {
    if |ts| == 0 then [] else [TypeRate(rows, ts[0])] + TypeRates(rows, ts[1..])
  }

  /** The first index of a largest entry (`idxmax`). */
  function ArgMax(xs: seq<real>): (k: nat)
    requires |xs| > 0
    ensures k < |xs|
    ensures forall i :: 0 <= i < |xs| ==> xs[i] <= xs[k]
    ensures forall i :: 0 <= i < k ==> xs[i] < xs[k]
  {
    if |xs| == 1 then 0
    else
      var k := ArgMax(xs[..|xs| - 1]);
      assert forall i :: 0 <= i < |xs| - 1 ==> xs[..|xs| - 1][i] == xs[i];
      if xs[|xs| - 1] > xs[k] then |xs| - 1 else k
  }

  datatype TypeRateTop = TypeRateTop(name: string, rate: real)

  /**
   * The evaluation category of highest hit rate, the first in sorted order
   * among equals; a ValueError when no evaluation has a category (the group
   * table is empty).
   */
  function TopType(rows: seq<Event>): (r: Result<TypeRateTop>)
    ensures r.Err? ==> r.error == "ValueError"
  {
    var ts := SortedUnique(Present(Categories(rows)));
    if |ts| == 0 then Err("ValueError")
    else
      var k := ArgMax(TypeRates(rows, ts));
      Ok(TypeRateTop(ts[k], TypeRate(rows, ts[k])))
  }

  /** Every category of a row is one of the sorted distinct categories. */
  lemma CategoriesListed(rows: seq<Event>, e: Event)
    requires e in rows && Category(e).Some?
    ensures Category(e).value in SortedUnique(Present(Categories(rows)))
  {
    var i :| 0 <= i < |rows| && rows[i] == e;
    assert Categories(rows)[i] == Category(e);
  }

  /** A listed category belongs to some row. */
  lemma ListedCategory(rows: seq<Event>, t: string) returns (e: Event)
    requires t in SortedUnique(Present(Categories(rows)))
    ensures e in rows && Category(e) == Some(t)
  {
    var cats := Categories(rows);
    assert Some(t) in cats;
    var i :| 0 <= i < |cats| && cats[i] == Some(t);
    e := rows[i];
  }

  /** TopType fails exactly when no row has a category. */
  lemma TopTypeFails(rows: seq<Event>)
    ensures TopType(rows).Err? <==> forall e :: e in rows ==> Category(e).None?
  {
    var ts := SortedUnique(Present(Categories(rows)));
    if |ts| > 0 {
      var w := ListedCategory(rows, ts[0]);
    } else {
      forall e | e in rows ensures Category(e).None? {
        if Category(e).Some? {
          CategoriesListed(rows, e);
        }
      }
    }
  }

  /** The top category belongs to a row and no category has a higher rate. */
  lemma TopTypeBest(rows: seq<Event>, e: Event)
    requires TopType(rows).Ok?
    requires e in rows && Category(e).Some?
    ensures (exists x :: x in rows && Category(x) == Some(TopType(rows).value.name))
    ensures TopType(rows).value.rate == TypeRate(rows, TopType(rows).value.name)
    ensures TypeRate(rows, Category(e).value) <= TopType(rows).value.rate
  {
    TopTypeAttained(rows);
    TopTypeBeats(rows, e);
  }

  lemma TopTypeAttained(rows: seq<Event>)
    requires TopType(rows).Ok?
    ensures exists x :: x in rows && Category(x) == Some(TopType(rows).value.name)
  {
    var ts := SortedUnique(Present(Categories(rows)));
    var k := ArgMax(TypeRates(rows, ts));
    var w := ListedCategory(rows, ts[k]);
  }

  lemma TopTypeBeats(rows: seq<Event>, e: Event)
    requires TopType(rows).Ok?
    requires e in rows && Category(e).Some?
    ensures TypeRate(rows, Category(e).value) <= TopType(rows).value.rate
  {
    var ts := SortedUnique(Present(Categories(rows)));
    var rates := TypeRates(rows, ts);
    var k := ArgMax(rates);
    CategoriesListed(rows, e);
    var j :| 0 <= j < |ts| && ts[j] == Category(e).value;
    assert rates[j] <= rates[k];
  }

  lemma {:induction false} YearBound(d: DateText)
    ensures Year(d) < 10000
  {
    DigitsBound(d[..4]);
    assert Pow10(4) == 10000;
  }

  /** The distinct years below `y` of the rows, ascending (`groupby(year)` index). */
  function YearsBelow(rows: seq<Event>, y: nat): (r: seq<int>)
    ensures ComplianceTrends.Increasing(r)
    ensures forall x :: x in r <==> 0 <= x < y && exists e :: e in rows && Year(e.date) == x
  {
    if y == 0 then []
    else
      var p := YearsBelow(rows, y - 1);
      assert forall i :: 0 <= i < |p| ==> p[i] in p;
      if exists e :: e in rows && Year(e.date) == y - 1 then p + [y - 1] else p
  }

  function Years(rows: seq<Event>): (r: seq<int>)
    ensures ComplianceTrends.Increasing(r)
    ensures forall x :: x in r <==> exists e :: e in rows && Year(e.date) == x
  {
    forall e | e in rows ensures Year(e.date) < 10000 {
      YearBound(e.date);
    }
    YearsBelow(rows, 10000)
  }

  /** `groupby(year).agg(cnt = nunique(pk))`, in year order. */
  function YearCounts(rows: seq<Event>, ys: seq<int>): (r: seq<int>)
    ensures |r| == |ys| && forall i :: 0 <= i < |ys| ==> r[i] == |Keys(AtYear(rows, ys[i]))|
  {
    if |ys| == 0 then [] else [|Keys(AtYear(rows, ys[0]))|] + YearCounts(rows, ys[1..])
  }

  /** `groupby([year, type]).agg(cnt = nunique(pk))` for one year, NULL categories dropped. */
  function TypeCounts(rows: seq<Event>, y: int, ts: seq<string>): (r: seq<ComplianceTrends.YearCount>)
    ensures |r| == |ts|
    ensures forall i :: 0 <= i < |ts| ==> r[i] == ComplianceTrends.YearCount(y, ts[i], |Keys(OfType(AtYear(rows, y), ts[i]))|)
  {
    if |ts| == 0 then []
    else [ComplianceTrends.YearCount(y, ts[0], |Keys(OfType(AtYear(rows, y), ts[0]))|)] + TypeCounts(rows, y, ts[1..])
  }

  function YearTypeCounts(rows: seq<Event>, ys: seq<int>): (r: seq<ComplianceTrends.YearCount>)
    ensures forall x :: x in r ==> x.year in ys
  {
    if |ys| == 0 then []
    else
      var y := ys[0];
      var here := TypeCounts(rows, y, SortedUnique(Present(Categories(AtYear(rows, y)))));
      var rest := YearTypeCounts(rows, ys[1..]);
      YearsOfConcat(here, rest, y, ys);
      here + rest
  }

  lemma YearsOfConcat(here: seq<ComplianceTrends.YearCount>, rest: seq<ComplianceTrends.YearCount>, y: int, ys: seq<int>)
    requires |ys| > 0 && y == ys[0]
    requires forall i :: 0 <= i < |here| ==> here[i].year == y
    requires forall x :: x in rest ==> x.year in ys[1..]
    ensures forall x :: x in here + rest ==> x.year in ys
  {
    forall x | x in here + rest ensures x.year in ys {
      if x in here {
        var i :| 0 <= i < |here| && here[i] == x;
      } else {
        assert x in rest;
        assert x.year in ys[1..];
      }
    }
  }

  /** The trend columns of one view's slice. */
  datatype Trend = Trend(slopePct: real, spikeYear: Option<int>, spikeType: Option<string>, typeToWatch: Option<string>)

  /**
   * Slope and spike of the yearly key counts, the most common category of
   * the spike year (`if spy` skips a year 0), and the category to watch from
   * `currentYear - 1` on.
   */
  function TrendOf(rows: seq<Event>, currentYear: int): (r: Result<Trend>)
    requires |rows| > 0
    ensures r.Err? ==> r.error == "IndexError"
  {
    var ys := Years(rows);
    assert Year(rows[0].date) in ys;
    var cnts := YearCounts(rows, ys);
    var spy := ComplianceTrends.SpikeYear(ys, cnts);
    var watch := ComplianceTrends.EmergingType(YearTypeCounts(rows, ys), currentYear - 1);
    var slope := ComplianceTrends.SlopePct(ys, cnts);
    match spy
    case None => Ok(Trend(slope, None, None, watch))
    case Some(y) =>
      if y == 0 then Ok(Trend(slope, spy, None, watch))
      else match Mode(Categories(AtYear(rows, y)))
        case Err(e) => Err(e)
        case Ok(t) => Ok(Trend(slope, spy, Some(t), watch))
  }

  datatype LargestPenalty = LargestPenalty(enfType: Option<string>, amount: real)

  function PenaltyOf(e: Event): Option<real> {
    if e.detail.Enforcement? then e.detail.penalty else None
  }

  /** The first enforcement of largest non-NULL penalty (`idxmax`), or (None, 0.0). */
  function Largest(rows: seq<Event>): (r: LargestPenalty)
    ensures (forall e :: e in rows ==> PenaltyOf(e).None?) ==> r == LargestPenalty(None, 0.0)
    ensures (exists e :: e in rows && PenaltyOf(e).Some?) ==>
      (exists e :: e in rows && PenaltyOf(e) == Some(r.amount) && Category(e) == r.enfType) &&
      forall e :: e in rows && PenaltyOf(e).Some? ==> PenaltyOf(e).value <= r.amount
  {
    if |rows| == 0 then LargestPenalty(None, 0.0)
    else
      var e := rows[|rows| - 1];
      var init := rows[..|rows| - 1];
      var p := Largest(init);
      assert rows == init + [e];
      assert forall x :: x in rows <==> x in init || x == e;
      var none := forall x :: x in init ==> PenaltyOf(x).None?;
      match PenaltyOf(e)
      case None => p
      case Some(a) => if none || a > p.amount then LargestPenalty(Category(e), a) else p
  }

  // ---------------------------------------------------------------- build_metrics

  /** The three windowed views, the tables the facility count reads, and the year of the run. */
  datatype Tables = Tables(
    evalsWin: seq<Event>, violationsWin: seq<Event>, enfsWin: seq<Event>,
    reports: seq<Report>, matched: seq<Matched>, currentYear: int)

  /** The views over the window of `currentYear` and `lookback`; a failed penalty cast fails the run. */
  function Fetch(rs: seq<Report>, ms: seq<Matched>, currentYear: int, lookback: int, toDouble: string -> Option<real>): Result<Tables> {
    var w := MakeWindow(currentYear, lookback);
    var ev := View(Evaluations, w, toDouble, rs, ms);
    var vi := View(Violations, w, toDouble, rs, ms);
    var en := View(Enforcements, w, toDouble, rs, ms);
    if ev.Err? then Err(ev.error)
    else if vi.Err? then Err(vi.error)
    else if en.Err? then Err(en.error)
    else Ok(Tables(ev.value, vi.value, en.value, rs, ms, currentYear))
  }

  /**
   * `facilities_full` sliced by contact and account, counted by distinct
   * `handler_id`, over all years.
   */
  function FacilityIds(rs: seq<Report>, ms: seq<Matched>, email: Option<string>, acc: string): set<string> {
    set r, m | r in rs && m in ms && Joins(r, m) && WhoOf(m).Some? && Selected(WhoOf(m).value, email, acc) :: r.handlerId.value
  }

  datatype EvalPatterns = EvalPatterns(top: TypeRateTop, trend: Trend)

  /** One summary row: identity, counts, dates, hit rate and the patterns. */
  datatype Metrics = Metrics(
    contactEmail: string, accountId: string, profile: Profile,
    facilities: nat, evaluations: nat, evalsWithViol: nat, violations: nat, enforcementActions: nat,
    totalPenalties: real, openViolations: nat,
    lastEvalDate: Option<nat>, lastViolationDate: Option<nat>, lastPenaltyDate: Option<nat>,
    hitRate: real,
    evalPatterns: Option<EvalPatterns>, violPatterns: Option<Trend>,
    largestPenalty: LargestPenalty, avgDaysToResolve: Option<int>)

  /** The first row of the first non-empty slice. */
  function FirstRow(e: seq<Event>, v: seq<Event>, f: seq<Event>): Event
    requires |e| > 0 || |v| > 0 || |f| > 0
  {
    if |e| > 0 then e[0] else if |v| > 0 then v[0] else f[0]
  }

  /**
   * The evaluation patterns, present when there are evaluations: the top
   * category by hit rate (a ValueError when no evaluation has one) and the
   * trend of the yearly counts.
   */
  function EvalPart(e: seq<Event>, currentYear: int): (r: Result<Option<EvalPatterns>>)
    ensures r == Err("ValueError") <==> |e| > 0 && forall x :: x in e ==> Category(x).None?
    ensures r.Err? ==> r.error in {"ValueError", "IndexError"}
    ensures r == Ok(None) <==> |e| == 0
  {
    if |Keys(e)| != 0 then
      assert |e| > 0;
      TopTypeFails(e);
      match TopType(e)
      case Err(x) => Err(x)
      case Ok(top) =>
        match TrendOf(e, currentYear)
        case Err(x) => Err(x)
        case Ok(tr) => Ok(Some(EvalPatterns(top, tr)))
    else
      HitKeys(e);
      Ok(None)
  }

  /** The violation patterns, present when there are violations. */
  function ViolPart(v: seq<Event>, currentYear: int): (r: Result<Option<Trend>>)
    ensures r.Err? ==> r.error == "IndexError"
    ensures r == Ok(None) <==> |v| == 0
  {
    if |v| > 0 then
      match TrendOf(v, currentYear)
      case Err(x) => Err(x)
      case Ok(tr) => Ok(Some(tr))
    else Ok(None)
  }

  /**
   * `build_metrics(email, acc)`: None (the empty dict) when all three slices
   * are empty, an error raised by the evaluation or violation patterns, or
   * the summary row.
   */
  function BuildMetrics(t: Tables, email: Option<string>, acc: string): Result<Option<Metrics>> {
    var e := Slice(t.evalsWin, email, acc);
    var v := Slice(t.violationsWin, email, acc);
    var f := Slice(t.enfsWin, email, acc);
    if |e| == 0 && |v| == 0 && |f| == 0 then Ok(None)
    else
      var first := FirstRow(e, v, f);
      var evaluations := |Keys(e)|;
      var withViol := |Keys(Hits(e))|;
      var evalPart := EvalPart(e, t.currentYear);
      var violPart := ViolPart(v, t.currentYear);
      if evalPart.Err? then Err(evalPart.error)
      else if violPart.Err? then Err(violPart.error)
      else
        Ok(Some(Metrics(
          first.who.contactEmail, first.who.accountId, first.who.profile,
          |FacilityIds(t.reports, t.matched, email, acc)|,
          evaluations, withViol, |Keys(v)|, |Keys(f)|,
          PenaltyTotal(f), OpenCount(v),
          LastDate(e), LastDate(v), LastDate(f),
          HitRate(evaluations, withViol),
          evalPart.value, violPart.value,
          Largest(f), AvgDays(v))))
  }

  /**
   * The empty result happens exactly for three empty slices, and a non-empty
   * result takes its identity from the first non-empty slice, which matches
   * the requested contact and account.
   */
  lemma BuildMetricsIdentity(t: Tables, email: Option<string>, acc: string)
    ensures var e := Slice(t.evalsWin, email, acc);
      var v := Slice(t.violationsWin, email, acc);
      var f := Slice(t.enfsWin, email, acc);
      (BuildMetrics(t, email, acc) == Ok(None) <==> |e| == 0 && |v| == 0 && |f| == 0) &&
      (BuildMetrics(t, email, acc).Ok? && BuildMetrics(t, email, acc).value.Some? ==>
        var m := BuildMetrics(t, email, acc).value.value;
        var first := FirstRow(e, v, f);
        m.contactEmail == first.who.contactEmail && m.accountId == first.who.accountId &&
        m.profile == first.who.profile && email == Some(m.contactEmail) && m.accountId == acc)
  {
    var e := Slice(t.evalsWin, email, acc);
    var v := Slice(t.violationsWin, email, acc);
    var f := Slice(t.enfsWin, email, acc);
    if |e| > 0 || |v| > 0 || |f| > 0 {
      var first := FirstRow(e, v, f);
      assert first in e || first in v || first in f;
    }
  }

  /**
   * The errors: a ValueError exactly when evaluations exist and none has a
   * category, otherwise an IndexError from the most common category of a
   * spike year.
   */
  lemma BuildMetricsErrors(t: Tables, email: Option<string>, acc: string)
    ensures var e := Slice(t.evalsWin, email, acc);
      (BuildMetrics(t, email, acc) == Err("ValueError") <==>
        |e| > 0 && forall x :: x in e ==> Category(x).None?) &&
      (BuildMetrics(t, email, acc).Err? ==> BuildMetrics(t, email, acc).error in {"ValueError", "IndexError"})
  {
  }

  /**
   * The counts: evaluations with a violation are among the evaluations and
   * the hit rate is computed from the two (see HitRateOf), there are no evaluation patterns without evaluations, open and resolved
   * violations add up to the slice, and with one row per key (as the views guarantee) each count of
   * distinct keys is the slice's length.
   */
  lemma BuildMetricsCounts(t: Tables, email: Option<string>, acc: string)
    requires BuildMetrics(t, email, acc).Ok? && BuildMetrics(t, email, acc).value.Some?
    ensures var m := BuildMetrics(t, email, acc).value.value;
      var e := Slice(t.evalsWin, email, acc);
      var v := Slice(t.violationsWin, email, acc);
      var f := Slice(t.enfsWin, email, acc);
      m.evalsWithViol <= m.evaluations &&
      m.hitRate == HitRate(m.evaluations, m.evalsWithViol) &&
      (m.evaluations == 0 ==> m.evalPatterns.None?) &&
      m.openViolations + |Resolved(v)| == |v| &&
      (UniqueKeys(t.evalsWin) ==> m.evaluations == |e|) &&
      (UniqueKeys(t.violationsWin) ==> m.violations == |v|) &&
      (UniqueKeys(t.enfsWin) ==> m.enforcementActions == |f|)
  {
    var e := Slice(t.evalsWin, email, acc);
    var v := Slice(t.violationsWin, email, acc);
    var f := Slice(t.enfsWin, email, acc);
    BuildMetricsFields(t, email, acc);
    HitKeys(e);
    OpenAndResolved(v);
    UniqueCount(t.evalsWin, email, acc);
    UniqueCount(t.violationsWin, email, acc);
    UniqueCount(t.enfsWin, email, acc);
  }

  /** The counting columns of a summary, read off the three slices. */
  lemma BuildMetricsFields(t: Tables, email: Option<string>, acc: string)
    requires BuildMetrics(t, email, acc).Ok? && BuildMetrics(t, email, acc).value.Some?
    ensures var m := BuildMetrics(t, email, acc).value.value;
      var e := Slice(t.evalsWin, email, acc);
      var v := Slice(t.violationsWin, email, acc);
      var f := Slice(t.enfsWin, email, acc);
      && m.evaluations == |Keys(e)| && m.evalsWithViol == |Keys(Hits(e))|
      && m.hitRate == HitRate(m.evaluations, m.evalsWithViol)
      && (|e| > 0 ==> m.evalPatterns == EvalPart(e, t.currentYear).value)
      && (|e| == 0 ==> m.evalPatterns.None?)
      && m.openViolations == OpenCount(v) && m.violations == |Keys(v)| && m.enforcementActions == |Keys(f)|
  {
    var e := Slice(t.evalsWin, email, acc);
    var v := Slice(t.violationsWin, email, acc);
    var f := Slice(t.enfsWin, email, acc);
    assert |e| > 0 || |v| > 0 || |f| > 0;
    var evalPart := EvalPart(e, t.currentYear);
    assert evalPart.Ok? && ViolPart(v, t.currentYear).Ok?;
    var m := BuildMetrics(t, email, acc).value.value;
    assert m.evaluations == |Keys(e)| && m.evalsWithViol == |Keys(Hits(e))| && m.evalPatterns == evalPart.value;
  }

  /** A summary's hit rate is the percentage of evaluations that found a violation, 0 without evaluations. */
  lemma HitRateOf(m: Metrics)
    requires m.evalsWithViol <= m.evaluations && m.hitRate == HitRate(m.evaluations, m.evalsWithViol)
    ensures 0.0 <= m.hitRate <= 100.0
    ensures m.evaluations != 0 ==> m.hitRate * m.evaluations as real == 100.0 * m.evalsWithViol as real
    ensures m.evaluations == 0 ==> m.hitRate == 0.0
  {
    HitRateBounds(m.evaluations, m.evalsWithViol);
  }

  lemma HitKeys(e: seq<Event>)
    ensures |Keys(Hits(e))| <= |Keys(e)|
    ensures |Keys(e)| == 0 ==> |e| == 0
  {
    assert Keys(Hits(e)) <= Keys(e);
    SubsetCount(Keys(Hits(e)), Keys(e));
    assert |e| > 0 ==> e[0].pk in Keys(e);
  }

  lemma UniqueCount(rows: seq<Event>, email: Option<string>, acc: string)
    ensures UniqueKeys(rows) ==> |Keys(Slice(rows, email, acc))| == |Slice(rows, email, acc)|
  {
    SliceUnique(rows, email, acc);
    KeysCount(Slice(rows, email, acc));
  }

  lemma {:induction false} SliceUnique(rows: seq<Event>, email: Option<string>, acc: string)
    ensures UniqueKeys(rows) ==> UniqueKeys(Slice(rows, email, acc))
  {
    if |rows| > 0 && UniqueKeys(rows) {
      var tail := rows[1..];
      assert UniqueKeys(tail);
      SliceUnique(tail, email, acc);
      var st := Slice(tail, email, acc);
      assert forall x :: x in st ==> x.pk != rows[0].pk;
    }
  }

  // ---------------------------------------------------------------- output rows

  /** The distinct elements of `xs` in order of first occurrence (`drop_duplicates`, `unique`). */
  function Distinct<T(==,!new)>(xs: seq<T>): (r: seq<T>)
    ensures forall x :: x in r <==> x in xs
    ensures forall i, j :: 0 <= i < j < |r| ==> r[i] != r[j]
  {
    if |xs| == 0 then []
    else
      var p := Distinct(xs[..|xs| - 1]);
      var last := xs[|xs| - 1];
      assert xs == xs[..|xs| - 1] + [last];
      if last in p then p else p + [last]
  }

  function ContactPairs(rows: seq<Event>): (r: seq<(string, string)>)
    ensures forall x :: x in r <==> exists e :: e in rows && x == (e.who.contactEmail, e.who.accountId)
  {
    if |rows| == 0 then []
    else
      var rest := ContactPairs(rows[1..]);
      assert forall e :: e in rows <==> e == rows[0] || e in rows[1..];
      [(rows[0].who.contactEmail, rows[0].who.accountId)] + rest
  }

  function AccountIds(rows: seq<Event>): (r: seq<string>)
    ensures forall a :: a in r <==> exists e :: e in rows && a == e.who.accountId
  {
    if |rows| == 0 then []
    else
      var rest := AccountIds(rows[1..]);
      assert forall e :: e in rows <==> e == rows[0] || e in rows[1..];
      [rows[0].who.accountId] + rest
  }

  /** One summary per distinct (contact_email, account_id) of the evaluation view. */
  function ContactRows(t: Tables): (r: seq<Result<Option<Metrics>>>)
    ensures var ps := Distinct(ContactPairs(t.evalsWin));
      |r| == |ps| && forall i :: 0 <= i < |ps| ==> r[i] == BuildMetrics(t, Some(ps[i].0), ps[i].1)
  {
    var ps := Distinct(ContactPairs(t.evalsWin));
    seq(|ps|, i requires 0 <= i < |ps| => BuildMetrics(t, Some(ps[i].0), ps[i].1))
  }

  /**
   * One summary per distinct account of the evaluation view, built with no
   * email: `contact_email == None` holds for no row.
   */
  function AccountRows(t: Tables): (r: seq<Result<Option<Metrics>>>)
    ensures var ids := Distinct(AccountIds(t.evalsWin));
      |r| == |ids| && forall i :: 0 <= i < |ids| ==> r[i] == BuildMetrics(t, None, ids[i])
  {
    var ids := Distinct(AccountIds(t.evalsWin));
    seq(|ids|, i requires 0 <= i < |ids| => BuildMetrics(t, None, ids[i]))
  }

  /** Every account row is the empty summary. */
  lemma AccountRowsEmpty(t: Tables)
    ensures forall r :: r in AccountRows(t) ==> r == Ok(None)
  {
    var ids := Distinct(AccountIds(t.evalsWin));
    var rows := AccountRows(t);
    forall r | r in rows ensures r == Ok(None) {
      var i :| 0 <= i < |rows| && rows[i] == r;
      NoneSelectsNothing(t.evalsWin, ids[i]);
      NoneSelectsNothing(t.violationsWin, ids[i]);
      NoneSelectsNothing(t.enfsWin, ids[i]);
      BuildMetricsIdentity(t, None, ids[i]);
    }
  }

  /** Without an email no row is selected. */
  lemma {:induction false} NoneSelectsNothing(rows: seq<Event>, acc: string)
    ensures |Slice(rows, None, acc)| == 0
  {
    if |rows| > 0 {
      NoneSelectsNothing(rows[1..], acc);
    }
  }

  /** No contact row is the empty summary: its pair comes from an evaluation of that contact. */
  lemma ContactRowsNonEmpty(t: Tables)
    ensures forall r :: r in ContactRows(t) ==> r != Ok(None)
  {
    var ps := Distinct(ContactPairs(t.evalsWin));
    forall i | 0 <= i < |ps| ensures BuildMetrics(t, Some(ps[i].0), ps[i].1) != Ok(None) {
      assert ps[i] in ContactPairs(t.evalsWin);
      var e :| e in t.evalsWin && ps[i] == (e.who.contactEmail, e.who.accountId);
      assert e in Slice(t.evalsWin, Some(ps[i].0), ps[i].1);
      BuildMetricsIdentity(t, Some(ps[i].0), ps[i].1);
    }
  }
}
