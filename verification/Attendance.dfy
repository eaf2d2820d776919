/**
 * Check-in and check-out of app/api/attendance.py: hours, overtime rate and wage, and the
 * expense, owner transaction and journal that a check-out writes or rewrites. Wages are cents.
 */
module Attendance {
  import opened Prelude
  import opened Money
  import L = Ledger
  import LedgerHandlers
  import Text

  // ---------------------------------------------------------------- hours and wage

  datatype LabourType = LabourType(dailyWage: real, otRate: Option<real>)

  datatype Labour = Labour(id: int, dailyWage: Option<real>, otRate: Option<real>, kind: Option<LabourType>)

  datatype Policy = Policy(fixedRate: bool, fixedOt: Option<real>, normalDay: Option<real>, sunday: Option<real>)

  function DailyWage(l: Labour): real {
    OrElse(l.dailyWage, if l.kind.Some? then l.kind.value.dailyWage else 0.0)
  }

  function BaseOtRate(l: Labour): real {
    OrElse(l.otRate, if l.kind.Some? then OrElse(l.kind.value.otRate, 0.0) else 0.0)
  }

  function RegularHours(hours: real): real {
    if hours < 8.0 then hours else 8.0
  }

  function OvertimeHours(hours: real): real {
    if hours > 8.0 then hours - 8.0 else 0.0
  }

  /** The rate an overtime hour is paid at; only a fixed policy pays without a base rate. */
  function RateFor(l: Labour, p: Option<Policy>, sunday: bool): real {
    if p.Some? && p.value.fixedRate then OrElse(p.value.fixedOt, 0.0)
    else if BaseOtRate(l) <= 0.0 then 0.0
    else if p.None? then BaseOtRate(l)
    else
      var normal := OrElse(p.value.normalDay, 1.0);
      BaseOtRate(l) * (if sunday then OrElse(p.value.sunday, normal) else normal)
  }

  /** The wage before rounding, in cents. */
  function ExactWage(daily: real, rate: real, hours: real): real {
    (daily / 8.0 * RegularHours(hours) + rate * OvertimeHours(hours)) * 100.0
  }

  function WageFor(l: Labour, p: Option<Policy>, sunday: bool, hours: real): int {
    Quantized(ExactWage(DailyWage(l), RateFor(l, p, sunday), hours))
  }

  /** Regular and overtime hours make up the total, and only whole days have overtime. */
  lemma HoursSplit(hours: real)
    ensures RegularHours(hours) + OvertimeHours(hours) == hours
    ensures RegularHours(hours) <= 8.0 && OvertimeHours(hours) >= 0.0
    ensures OvertimeHours(hours) > 0.0 ==> RegularHours(hours) == 8.0
  {
  }

  lemma ProductGrows(a: real, x: real, y: real)
    requires a >= 0.0 && x <= y
    ensures a * x <= a * y
  {
  }

  lemma ExactWageGrows(daily: real, rate: real, h: real, h': real)
    requires daily >= 0.0 && rate >= 0.0 && h <= h'
    ensures ExactWage(daily, rate, h) <= ExactWage(daily, rate, h')
  {
    ProductGrows(daily / 8.0, RegularHours(h), RegularHours(h'));
    ProductGrows(rate, OvertimeHours(h), OvertimeHours(h'));
  }

  predicate NonNegative(x: Option<real>) {
    x.Some? ==> x.value >= 0.0
  }

  predicate PolicyOk(p: Option<Policy>) {
    p.Some? ==> NonNegative(p.value.fixedOt) && NonNegative(p.value.normalDay) && NonNegative(p.value.sunday)
  }

  /** A negative base rate pays nothing, so no overtime rate is negative unless the policy is. */
  lemma RateIsNonNegative(l: Labour, p: Option<Policy>, sunday: bool)
    requires PolicyOk(p)
    ensures RateFor(l, p, sunday) >= 0.0
  {
    if p.Some? && BaseOtRate(l) > 0.0 {
      var normal := OrElse(p.value.normalDay, 1.0);
      ProductGrows(BaseOtRate(l), 0.0, if sunday then OrElse(p.value.sunday, normal) else normal);
    }
  }

  /** Unless daily wage or policy are negative, a longer day never pays less. */
  lemma WageGrowsWithHours(l: Labour, p: Option<Policy>, sunday: bool, h: real, h': real)
    requires DailyWage(l) >= 0.0 && PolicyOk(p) && h <= h'
    ensures WageFor(l, p, sunday, h) <= WageFor(l, p, sunday, h')
  {
    var daily, rate := DailyWage(l), RateFor(l, p, sunday);
    RateIsNonNegative(l, p, sunday);
    ExactWageGrows(daily, rate, h, h');
    QuantizedFacts(ExactWage(daily, rate, h), ExactWage(daily, rate, h'));
  }

  lemma WageIsWithinHalfACent(l: Labour, p: Option<Policy>, sunday: bool, h: real)
    ensures var exact := ExactWage(DailyWage(l), RateFor(l, p, sunday), h);
            -0.5 <= WageFor(l, p, sunday, h) as real - exact <= 0.5
  {
  }

  /** A day of exactly eight hours pays the daily wage, and each further hour the overtime rate. */
  lemma FullDayPaysTheDailyWage(daily: real, rate: real, extra: real)
    requires extra >= 0.0
    ensures ExactWage(daily, rate, 8.0 + extra) == daily * 100.0 + rate * extra * 100.0
  {
  }

  // ---------------------------------------------------------------- the rate on the fields

  /** Python's `a or b` on fields that may be missing. */
  ghost function GivenOr(field: Option<real>, other: real): real {
    match field
    case None => other
    case Some(x) => if x == 0.0 then other else x
  }

  /** The wage of a whole day and the base rate of overtime: the labour's own, else those of its type, else nothing. */
  ghost predicate PaidAt(l: Labour, daily: real, base: real) {
    match l.kind
    case None => daily == GivenOr(l.dailyWage, 0.0) && base == GivenOr(l.otRate, 0.0)
    case Some(t) => daily == GivenOr(l.dailyWage, t.dailyWage) && base == GivenOr(l.otRate, GivenOr(t.otRate, 0.0))
  }

  /** A fixed policy sets the rate; any other multiplies a positive base, on Sundays by its own factor if it has one. */
  ghost predicate RateIs(base: real, p: Option<Policy>, sunday: bool, rate: real) {
    match p
    case None => rate == if base <= 0.0 then 0.0 else base
    case Some(policy) =>
      if policy.fixedRate then rate == GivenOr(policy.fixedOt, 0.0)
      else if base <= 0.0 then rate == 0.0
      else if sunday then rate == base * GivenOr(policy.sunday, GivenOr(policy.normalDay, 1.0))
      else rate == base * GivenOr(policy.normalDay, 1.0)
  }

  lemma RateHolds(l: Labour, p: Option<Policy>, sunday: bool)
    ensures PaidAt(l, DailyWage(l), BaseOtRate(l)) && RateIs(BaseOtRate(l), p, sunday, RateFor(l, p, sunday))
  {
  }

  /** Without overtime its rate does not matter. */
  lemma ExactOnFields(daily: real, rate: real, paid: real, total: real)
    requires paid == if OvertimeHours(total) > 0.0 then rate else 0.0
    ensures (daily / 8.0 * (total - OvertimeHours(total)) + paid * OvertimeHours(total)) * 100.0
         == ExactWage(daily, rate, total)
  {
    HoursSplit(total);
    assert paid * OvertimeHours(total) == rate * OvertimeHours(total);
    assert total - OvertimeHours(total) == RegularHours(total);
  }

  ghost predicate PaidOut(daily: real, rate: real, total: real, overtime: real, wage: int) {
    QuantizedAs((daily / 8.0 * (total - overtime) + rate * overtime) * 100.0, wage)
  }

  lemma PaidOutHolds(daily: real, rate: real, paid: real, total: real)
    requires paid == if OvertimeHours(total) > 0.0 then rate else 0.0
    ensures PaidOut(daily, paid, total, OvertimeHours(total), Quantized(ExactWage(daily, rate, total)))
  {
    ExactOnFields(daily, rate, paid, total);
    QuantizedIsNearest(ExactWage(daily, rate, total), Quantized(ExactWage(daily, rate, total)));
  }

  /** Eight hours at an eighth of the daily wage each, the rest at the overtime rate. */
  ghost predicate WageIs(l: Labour, p: Option<Policy>, sunday: bool, total: real,
                         overtime: real, rate: real, wage: int)
  {
    && overtime == (if total > 8.0 then total - 8.0 else 0.0)
    && exists daily, base :: PaidAt(l, daily, base) && PaidOut(daily, rate, total, overtime, wage)
                             && if overtime > 0.0 then RateIs(base, p, sunday, rate) else rate == 0.0
  }

  lemma WageHolds(l: Labour, p: Option<Policy>, sunday: bool, total: real)
    ensures WageIs(l, p, sunday, total, OvertimeHours(total),
                   if OvertimeHours(total) > 0.0 then RateFor(l, p, sunday) else 0.0, WageFor(l, p, sunday, total))
  {
    var rate := if OvertimeHours(total) > 0.0 then RateFor(l, p, sunday) else 0.0;
    RateHolds(l, p, sunday);
    PaidOutHolds(DailyWage(l), RateFor(l, p, sunday), rate, total);
  }

  // ---------------------------------------------------------------- the records

  datatype Attendance = Attendance(user: int, project: Option<int>, day: int, out: bool,
                                   hours: real, overtime: real, rate: real)

  /** An expense's id is its position; `auto` marks the ones written by check-outs. */
  datatype Expense = Expense(project: int, labour: int, day: int, amount: int, auto: bool)

  datatype Journal = Journal(day: int, lines: seq<L.Line>)

  /** `owners` are the owner transactions by the expense they refer to, journals go by number. */
  datatype Books = Books(attendances: seq<Attendance>, expenses: seq<Expense>,
                         owners: map<nat, int>, journals: map<string, Journal>)

  const EMPTY := Books([], [], map[], map[])

  predicate IsAuto(e: Expense, project: int, labour: int, day: int) {
    e.auto && e.project == project && e.labour == labour && e.day == day
  }

  function FindAuto(expenses: seq<Expense>, project: int, labour: int, day: int): (found: Option<nat>)
    ensures found.Some? ==> found.value < |expenses| && IsAuto(expenses[found.value], project, labour, day)
    ensures found.None? ==> forall i :: 0 <= i < |expenses| ==> !IsAuto(expenses[i], project, labour, day)
  {
    if expenses == [] then None
    else
      var n := |expenses| - 1;
      var found := FindAuto(expenses[..n], project, labour, day);
      if found.Some? then found else if IsAuto(expenses[n], project, labour, day) then Some(n) else None
  }

  /** The expense, its owner transaction and its journal after a wage was booked. */
  function Booked(s: Books, project: int, labour: int, day: int, wage: int, owned: bool, exp: int, pay: int): Books {
    var found := FindAuto(s.expenses, project, labour, day);
    var id := if found.Some? then found.value else |s.expenses|;
    var number := L.WageNumber(id);
    Books(s.attendances,
          if found.Some? then s.expenses[id := s.expenses[id].(amount := wage)]
          else s.expenses + [Expense(project, labour, day, wage, true)],
          if (if found.Some? then id in s.owners else owned) then s.owners[id := wage] else s.owners,
          s.journals[number :=
            Journal(day, if number in s.journals then L.RewageAll(s.journals[number].lines, exp, pay, wage)
                         else L.DebitCredit(exp, pay, wage))])
  }

  ghost predicate AutoAt(expenses: seq<Expense>, project: int, labour: int, day: int, i: int) {
    && 0 <= i < |expenses| && expenses[i].auto
    && expenses[i].project == project && expenses[i].labour == labour && expenses[i].day == day
  }

  /** The journal of expense `id` carries the wage: its lines on the two accounts rewritten, or two new ones. */
  ghost predicate JournalCarries(before: map<string, Journal>, after: map<string, Journal>,
                                 id: nat, day: int, wage: int, exp: int, pay: int)
  {
    var number := "J-EXP-" + Text.IntText(id);
    && after.Keys == before.Keys + {number} && after[number].day == day
    && (forall n :: n in before && n != number ==> after[n] == before[n])
    && if number !in before then after[number].lines == [L.Line(exp, wage, 0), L.Line(pay, 0, wage)]
       else |after[number].lines| == |before[number].lines| && forall k :: 0 <= k < |before[number].lines| ==>
              var l := before[number].lines[k];
              after[number].lines[k] == if l.account == exp then L.Line(exp, wage, 0)
                                        else if l.account == pay then L.Line(pay, 0, wage) else l
  }

  /** An automatic expense of the day takes the new amount, with its owner transaction; otherwise both are new. */
  ghost predicate BooksWage(s: Books, s': Books, project: int, labour: int, day: int, wage: int, owned: bool,
                            exp: int, pay: int)
  {
    && s'.attendances == s.attendances
    && if exists i :: AutoAt(s.expenses, project, labour, day, i) then
         exists i: nat :: && AutoAt(s.expenses, project, labour, day, i)
                          && s'.expenses == s.expenses[i := s.expenses[i].(amount := wage)]
                          && s'.owners == (if i in s.owners then s.owners[i := wage] else s.owners)
                          && JournalCarries(s.journals, s'.journals, i, day, wage, exp, pay)
       else
         && s'.expenses == s.expenses + [Expense(project, labour, day, wage, true)]
         && s'.owners == (if owned then s.owners[|s.expenses| := wage] else s.owners)
         && JournalCarries(s.journals, s'.journals, |s.expenses|, day, wage, exp, pay)
  }

  lemma JournalHolds(s: Books, id: nat, day: int, wage: int, exp: int, pay: int)
    ensures var number := L.WageNumber(id);
            JournalCarries(s.journals, s.journals[number :=
              Journal(day, if number in s.journals then L.RewageAll(s.journals[number].lines, exp, pay, wage)
                           else L.DebitCredit(exp, pay, wage))], id, day, wage, exp, pay)
  {
  }

  lemma BookedHolds(s: Books, project: int, labour: int, day: int, wage: int, owned: bool, exp: int, pay: int)
    ensures BooksWage(s, Booked(s, project, labour, day, wage, owned, exp, pay),
                      project, labour, day, wage, owned, exp, pay)
  {
    var found := FindAuto(s.expenses, project, labour, day);
    if found.Some? {
      assert AutoAt(s.expenses, project, labour, day, found.value);
      JournalHolds(s, found.value, day, wage, exp, pay);
    } else {
      JournalHolds(s, |s.expenses|, day, wage, exp, pay);
    }
  }

  datatype Event =
    | CheckIn(user: int, project: Option<int>, day: int)
    | CheckOut(user: int, att: nat, hours: real, sunday: bool, labour: Option<Labour>, policy: Option<Policy>,
               owned: bool, exp: Option<int>, pay: Option<int>)
    | ProxyCheckOut(att: nat, hours: real)

  predicate CheckedIn(attendances: seq<Attendance>, user: int, day: int) {
    exists i :: 0 <= i < |attendances| && attendances[i].user == user && attendances[i].day == day
  }

  /** One attendance for a user and day, whether checked in in person or by proxy. */
  function DoCheckIn(s: Books, user: int, project: Option<int>, day: int): Option<Books> {
    if CheckedIn(s.attendances, user, day) then None
    else Some(s.(attendances := s.attendances + [Attendance(user, project, day, false, 0.0, 0.0, 0.0)]))
  }

  function Closed(a: Attendance, hours: real, overtime: real, rate: real): Attendance {
    a.(out := true, hours := hours, overtime := overtime, rate := rate)
  }

  /** Only labour is paid; without a project the expense, and without both accounts the whole call, is refused. */
  function DoCheckOut(s: Books, e: Event): Option<Books>
    requires e.CheckOut?
  {
    if e.att >= |s.attendances| || s.attendances[e.att].user != e.user || s.attendances[e.att].out then None
    else
      var a := s.attendances[e.att];
      if e.labour.None? then Some(s.(attendances := s.attendances[e.att := Closed(a, e.hours, a.overtime, a.rate)]))
      else if a.project.None? || e.exp.None? || e.pay.None? then None
      else
        var l := e.labour.value;
        var overtime := OvertimeHours(e.hours);
        var rate := if overtime > 0.0 then RateFor(l, e.policy, e.sunday) else 0.0;
        var wage := WageFor(l, e.policy, e.sunday, e.hours);
        Some(Booked(s.(attendances := s.attendances[e.att := Closed(a, e.hours, overtime, rate)]),
                    a.project.value, l.id, a.day, wage, e.owned, e.exp.value, e.pay.value))
  }

  /** A proxy check-out closes the attendance and books nothing. */
  function DoProxyCheckOut(s: Books, att: nat, hours: real): Option<Books> {
    if att >= |s.attendances| || s.attendances[att].out then None
    else
      var a := s.attendances[att];
      Some(s.(attendances :=
        s.attendances[att := Closed(a, hours, if hours > 8.0 then hours - 8.0 else a.overtime, a.rate)]))
  }

  function Call(s: Books, e: Event): Option<Books> {
    match e
    case CheckIn(user, project, day) => DoCheckIn(s, user, project, day)
    case CheckOut(_, _, _, _, _, _, _, _, _) => DoCheckOut(s, e)
    case ProxyCheckOut(att, hours) => DoProxyCheckOut(s, att, hours)
  }

  function Step(s: Books, e: Event): Books {
    var c := Call(s, e);
    if c.Some? then c.value else s
  }

  function Run(s: Books, es: seq<Event>): Books
    decreases es
  {
    if es == [] then s else Run(Step(s, es[0]), es[1..])
  }

  // ---------------------------------------------------------------- linked records

  /** One line debits the amount, another account's line credits it. */
  ghost predicate Carries(lines: seq<L.Line>, amount: int) {
    && |lines| == 2 && lines[0].account != lines[1].account
    && lines[0].debit == amount && lines[0].credit == 0 && lines[1].debit == 0 && lines[1].credit == amount
  }

  /** Expense, owner transaction (when there is one), journal debit and journal credit are equal. */
  ghost predicate Linked(s: Books, id: nat)
    requires id < |s.expenses|
  {
    && L.WageNumber(id) in s.journals && Carries(s.journals[L.WageNumber(id)].lines, s.expenses[id].amount)
    && (id in s.owners ==> s.owners[id] == s.expenses[id].amount)
  }

  ghost predicate OneEachDay(expenses: seq<Expense>) {
    forall i, j :: 0 <= i < j < |expenses| && expenses[j].auto ==>
      !IsAuto(expenses[i], expenses[j].project, expenses[j].labour, expenses[j].day)
  }

  ghost predicate Unused(s: Books, id: nat) {
    L.WageNumber(id) !in s.journals && id !in s.owners
  }

  ghost predicate AllLinked(s: Books) {
    forall id: nat :: id < |s.expenses| && s.expenses[id].auto ==> Linked(s, id)
  }

  ghost predicate Inv(s: Books) {
    && OneEachDay(s.expenses) && AllLinked(s)
    && (forall id: nat :: id >= |s.expenses| ==> Unused(s, id))
  }

  /** Rewriting the two lines through the looked-up accounts leaves the new wage on both sides. */
  predicate LookupsFit(lines: seq<L.Line>, exp: int, pay: int, old': int, wage: int)
    requires |lines| == 2
  {
    && (lines[0].account == exp || (if lines[0].account == pay then wage == 0 else wage == old'))
    && (lines[1].account == pay || (if lines[1].account == exp then wage == 0 else wage == old'))
  }

  lemma RewageCarriesIff(lines: seq<L.Line>, exp: int, pay: int, old': int, wage: int)
    requires Carries(lines, old') && exp != pay
    ensures Carries(L.RewageAll(lines, exp, pay, wage), wage) <==> LookupsFit(lines, exp, pay, old', wage)
  {
  }

  /** The booking finds an expense to rewrite, and its journal is on other accounts than those looked up. */
  ghost predicate Mismatched(s: Books, project: int, labour: int, day: int, wage: int, exp: int, pay: int) {
    var found := FindAuto(s.expenses, project, labour, day);
    && found.Some? && Linked(s, found.value)
    && !LookupsFit(s.journals[L.WageNumber(found.value)].lines, exp, pay, s.expenses[found.value].amount, wage)
  }

  lemma OtherRecordsStay(s: Books, s': Books, id: nat, k: nat)
    requires k != id && k < |s.expenses| && k < |s'.expenses| && s'.expenses[k] == s.expenses[k]
    requires forall n :: n != L.WageNumber(id) ==> (n in s'.journals <==> n in s.journals)
    requires forall n :: n != L.WageNumber(id) && n in s.journals ==> s'.journals[n] == s.journals[n]
    requires (k in s'.owners <==> k in s.owners) && (k in s.owners ==> s'.owners[k] == s.owners[k])
    ensures Linked(s', k) <==> Linked(s, k)
  {
    if L.WageNumber(k) == L.WageNumber(id) {
      L.WageNumbersDiffer(k, id);
    }
  }

  lemma UnusedStays(s: Books, s': Books, id: nat, k: nat)
    requires k != id && Unused(s, k)
    requires forall n :: n != L.WageNumber(id) ==> (n in s'.journals <==> n in s.journals)
    requires k in s'.owners <==> k in s.owners
    ensures Unused(s', k)
  {
    if L.WageNumber(k) == L.WageNumber(id) {
      L.WageNumbersDiffer(k, id);
    }
  }

  lemma NewExpenseKeepsInv(s: Books, project: int, labour: int, day: int, wage: int, owned: bool, exp: int, pay: int)
    requires Inv(s) && exp != pay && FindAuto(s.expenses, project, labour, day).None?
    ensures Inv(Booked(s, project, labour, day, wage, owned, exp, pay))
  {
    var s' := Booked(s, project, labour, day, wage, owned, exp, pay);
    var n := |s.expenses|;
    assert Unused(s, n);
    forall k: nat | k < |s'.expenses| && s'.expenses[k].auto
      ensures Linked(s', k)
    {
      if k < n {
        assert Linked(s, k);
        OtherRecordsStay(s, s', n, k);
      }
    }
    forall k: nat | k >= |s'.expenses|
      ensures Unused(s', k)
    {
      UnusedStays(s, s', n, k);
    }
  }

  lemma RewriteKeepsInvIff(s: Books, project: int, labour: int, day: int, wage: int, owned: bool, exp: int, pay: int)
    requires Inv(s) && exp != pay && FindAuto(s.expenses, project, labour, day).Some?
    ensures Inv(Booked(s, project, labour, day, wage, owned, exp, pay))
            <==> !Mismatched(s, project, labour, day, wage, exp, pay)
  {
    var s' := Booked(s, project, labour, day, wage, owned, exp, pay);
    var id := FindAuto(s.expenses, project, labour, day).value;
    assert Linked(s, id);
    RewageCarriesIff(s.journals[L.WageNumber(id)].lines, exp, pay, s.expenses[id].amount, wage);
    assert Linked(s', id) <==> !Mismatched(s, project, labour, day, wage, exp, pay);
    forall k: nat | k < |s'.expenses| && s'.expenses[k].auto && k != id
      ensures Linked(s', k)
    {
      assert Linked(s, k);
      OtherRecordsStay(s, s', id, k);
    }
    forall k: nat | k >= |s'.expenses|
      ensures Unused(s', k)
    {
      UnusedStays(s, s', id, k);
    }
    assert OneEachDay(s'.expenses);
    assert AllLinked(s') <==> Linked(s', id);
  }

  /** The step rewrites a wage whose journal does not fit the accounts looked up now. */
  ghost predicate Misposts(s: Books, e: Event) {
    && e.CheckOut? && Call(s, e).Some? && e.labour.Some?
    && Mismatched(s, s.attendances[e.att].project.value, e.labour.value.id, s.attendances[e.att].day,
                  WageFor(e.labour.value, e.policy, e.sunday, e.hours), e.exp.value, e.pay.value)
  }

  /** The two accounts have different codes, so the lookups never return the same one. */
  predicate TwoAccounts(e: Event) {
    e.CheckOut? && e.exp.Some? && e.pay.Some? ==> e.exp.value != e.pay.value
  }

  lemma AttendancesDoNotMatter(s: Books, s': Books)
    requires s'.expenses == s.expenses && s'.owners == s.owners && s'.journals == s.journals
    ensures Inv(s') <==> Inv(s)
  {
    assert (forall k: nat :: k < |s.expenses| && s.expenses[k].auto ==> (Linked(s', k) <==> Linked(s, k)))
        && (forall k: nat :: Unused(s', k) <==> Unused(s, k));
  }

  /** Every step keeps the records equal, except exactly a rewrite through other accounts. */
  lemma StepKeepsInvIff(s: Books, e: Event)
    requires Inv(s) && TwoAccounts(e)
    ensures Inv(Step(s, e)) <==> !Misposts(s, e)
  {
    if e.CheckOut? && Call(s, e).Some? && e.labour.Some? {
      var a, l := s.attendances[e.att], e.labour.value;
      var wage := WageFor(l, e.policy, e.sunday, e.hours);
      if FindAuto(s.expenses, a.project.value, l.id, a.day).Some? {
        RewriteKeepsInvIff(s, a.project.value, l.id, a.day, wage, e.owned, e.exp.value, e.pay.value);
      } else {
        NewExpenseKeepsInv(s, a.project.value, l.id, a.day, wage, e.owned, e.exp.value, e.pay.value);
      }
      AttendancesDoNotMatter(
        Booked(s, a.project.value, l.id, a.day, wage, e.owned, e.exp.value, e.pay.value), Step(s, e));
    } else {
      AttendancesDoNotMatter(s, Step(s, e));
    }
  }

  ghost predicate NeverMisposts(s: Books, es: seq<Event>)
    decreases es
  {
    es == [] || (TwoAccounts(es[0]) && !Misposts(s, es[0]) && NeverMisposts(Step(s, es[0]), es[1..]))
  }

  lemma {:induction false} RunKeepsInv(s: Books, es: seq<Event>)
    requires Inv(s) && NeverMisposts(s, es)
    ensures Inv(Run(s, es))
    decreases es
  {
    if es != [] {
      StepKeepsInvIff(s, es[0]);
      RunKeepsInv(Step(s, es[0]), es[1..]);
    }
  }

  /** After a paid check-out the day has one automatic expense, of the wage, as have its linked records. */
  lemma CheckOutBooksTheWage(s: Books, e: Event) returns (id: nat)
    requires Inv(s) && e.CheckOut? && e.labour.Some? && Call(s, e).Some? && TwoAccounts(e) && !Misposts(s, e)
    ensures var s', a := Step(s, e), s.attendances[e.att];
            && id < |s'.expenses| && IsAuto(s'.expenses[id], a.project.value, e.labour.value.id, a.day)
            && s'.expenses[id].amount == WageFor(e.labour.value, e.policy, e.sunday, e.hours)
            && Linked(s', id)
            && forall k :: 0 <= k < |s'.expenses| && k != id ==>
                 !IsAuto(s'.expenses[k], a.project.value, e.labour.value.id, a.day)
  {
    var a, l := s.attendances[e.att], e.labour.value;
    var found := FindAuto(s.expenses, a.project.value, l.id, a.day);
    id := if found.Some? then found.value else |s.expenses|;
    StepKeepsInvIff(s, e);
    var s' := Step(s, e);
    forall k | 0 <= k < |s'.expenses| && k != id
      ensures !IsAuto(s'.expenses[k], a.project.value, l.id, a.day)
    {
      assert if k < id then
               !IsAuto(s'.expenses[k], s'.expenses[id].project, s'.expenses[id].labour, s'.expenses[id].day)
             else s'.expenses[k].auto ==>
               !IsAuto(s'.expenses[id], s'.expenses[k].project, s'.expenses[k].labour, s'.expenses[k].day);
    }
  }

  // ---------------------------------------------------------------- one booking a day

  ghost predicate OneAttendance(attendances: seq<Attendance>) {
    forall i, j :: 0 <= i < j < |attendances| ==>
      !(attendances[i].user == attendances[j].user && attendances[i].day == attendances[j].day)
  }

  /** `roster` gives the user of a labour row; a user may have several rows. */
  ghost predicate Paid(s: Books, roster: map<int, int>, x: Expense, i: nat) {
    && i < |s.attendances| && s.attendances[i].out && s.attendances[i].day == x.day
    && x.labour in roster && roster[x.labour] == s.attendances[i].user
  }

  /** Every automatic expense pays for a closed attendance. */
  ghost predicate AllPaidFor(s: Books, roster: map<int, int>) {
    forall k :: 0 <= k < |s.expenses| && s.expenses[k].auto ==> exists i: nat :: Paid(s, roster, s.expenses[k], i)
  }

  /** The labour row looked up is one of the user's. */
  ghost predicate OnRoster(e: Event, roster: map<int, int>) {
    e.CheckOut? && e.labour.Some? ==> e.labour.value.id in roster && roster[e.labour.value.id] == e.user
  }

  ghost predicate Fresh(s: Books, roster: map<int, int>) {
    OneAttendance(s.attendances) && AllPaidFor(s, roster)
  }

  /** An open attendance's day has no expense yet, so its check-out writes a new one. */
  lemma CheckOutNeverRewrites(s: Books, e: Event, roster: map<int, int>)
    requires Fresh(s, roster) && OnRoster(e, roster)
    requires e.CheckOut? && e.labour.Some? && Call(s, e).Some?
    ensures FindAuto(s.expenses, s.attendances[e.att].project.value, e.labour.value.id, s.attendances[e.att].day).None?
  {
  }

  lemma PaidStays(s: Books, s': Books, roster: map<int, int>, x: Expense)
    requires exists i: nat :: Paid(s, roster, x, i)
    requires |s.attendances| <= |s'.attendances|
    requires forall i :: 0 <= i < |s.attendances| && s.attendances[i].out ==> s'.attendances[i] == s.attendances[i]
    ensures exists i: nat :: Paid(s', roster, x, i)
  {
    var i: nat :| Paid(s, roster, x, i);
    assert Paid(s', roster, x, i);
  }

  lemma StepKeepsFresh(s: Books, e: Event, roster: map<int, int>)
    requires Fresh(s, roster) && OnRoster(e, roster)
    ensures Fresh(Step(s, e), roster)
  {
    var s' := Step(s, e);
    forall k | 0 <= k < |s'.expenses| && s'.expenses[k].auto
      ensures exists i: nat :: Paid(s', roster, s'.expenses[k], i)
    {
      if e.CheckOut? && Call(s, e).Some? && e.labour.Some? {
        CheckOutNeverRewrites(s, e, roster);
      }
      if k < |s.expenses| {
        PaidStays(s, s', roster, s.expenses[k]);
      } else {
        assert Paid(s', roster, s'.expenses[k], e.att);
      }
    }
  }

  lemma {:induction false} FreshRunKeepsInv(s: Books, es: seq<Event>, roster: map<int, int>)
    requires Inv(s) && Fresh(s, roster)
    requires forall e :: e in es ==> OnRoster(e, roster) && TwoAccounts(e)
    ensures Inv(Run(s, es)) && Fresh(Run(s, es), roster)
    decreases es
  {
    if es != [] {
      var e := es[0];
      assert e in es;
      if e.CheckOut? && Call(s, e).Some? && e.labour.Some? {
        CheckOutNeverRewrites(s, e, roster);
      }
      StepKeepsInvIff(s, e);
      StepKeepsFresh(s, e, roster);
      FreshRunKeepsInv(Step(s, e), es[1..], roster);
    }
  }

  /**
   * From empty tables, over every run of check-ins and check-outs in which no labour row
   * changes hands, whatever accounts the lookups return: at most one automatic expense a day,
   * all linked records equal, and a closed attendance behind every expense.
   */
  lemma RecordsAgreeFromTheStart(es: seq<Event>, roster: map<int, int>)
    requires forall e :: e in es ==> OnRoster(e, roster) && TwoAccounts(e)
    ensures var s := Run(EMPTY, es); OneEachDay(s.expenses) && AllLinked(s) && AllPaidFor(s, roster)
  {
    FreshRunKeepsInv(EMPTY, es, roster);
  }

  /** The attendance is closed with its hours and the wage, which is booked on its project and day. */
  ghost predicate PaysOut(s: Books, s': Books, att: nat, hours: real, sunday: bool, l: Labour, p: Option<Policy>,
                          owned: bool, exp: int, pay: int, overtime: real, rate: real, wage: int)
  {
    && att < |s.attendances| && s.attendances[att].project.Some? && WageIs(l, p, sunday, hours, overtime, rate, wage)
    && var a := s.attendances[att];
       var closed := s.attendances[att := a.(out := true, hours := hours, overtime := overtime, rate := rate)];
       && s'.attendances == closed
       && BooksWage(s.(attendances := closed), s', a.project.value, l.id, a.day, wage, owned, exp, pay)
  }

  // ---------------------------------------------------------------- the handlers in place

  class AttendanceDesk {
    var attendances: seq<Attendance>
    var expenses: seq<Expense>
    var owners: map<nat, int>
    var journals: map<string, Journal>

    function State(): Books
      reads this
    {
      Books(attendances, expenses, owners, journals)
    }

    constructor ()
      ensures State() == EMPTY
    {
      attendances, expenses, owners, journals := [], [], map[], map[];
    }

    method CheckInUser(user: int, project: Option<int>, day: int) returns (ok: bool)
      modifies this
      ensures State() == Step(old(State()), CheckIn(user, project, day))
      ensures ok <==> forall a :: a in old(attendances) ==> !(a.user == user && a.day == day)
      ensures attendances == if ok then old(attendances) + [Attendance(user, project, day, false, 0.0, 0.0, 0.0)]
                             else old(attendances)
    {
      if CheckedIn(attendances, user, day) {
        return false;
      }
      attendances := attendances + [Attendance(user, project, day, false, 0.0, 0.0, 0.0)];
      ok := true;
    }

    /** The overtime branch: hours, then the rate by policy. */
    method ComputeWage(l: Labour, policy: Option<Policy>, sunday: bool, total: real)
      returns (overtime: real, rate: real, wage: int)
      ensures overtime == OvertimeHours(total) && rate == if overtime > 0.0 then RateFor(l, policy, sunday) else 0.0
      ensures wage == WageFor(l, policy, sunday, total)
      ensures WageIs(l, policy, sunday, total, overtime, rate, wage)
    {
      WageHolds(l, policy, sunday, total);
      var working := if total < 8.0 then total else 8.0;
      overtime := if total - working > 0.0 then total - working else 0.0;
      var hourly := DailyWage(l) / 8.0;
      rate := 0.0;
      if overtime > 0.0 {
        var base := BaseOtRate(l);
        if policy.Some? && policy.value.fixedRate {
          rate := OrElse(policy.value.fixedOt, 0.0);
        } else if base <= 0.0 {
          rate := 0.0;
        } else if policy.Some? {
          var multiplier := OrElse(policy.value.normalDay, 1.0);
          if sunday {
            multiplier := OrElse(policy.value.sunday, multiplier);
          }
          rate := base * multiplier;
        } else {
          rate := base;
        }
      }
      var exact := hourly * working + rate * overtime;
      assert exact * 100.0 == ExactWage(DailyWage(l), RateFor(l, policy, sunday), total);
      wage := Quantized(exact * 100.0);
    }

    /** The upsert of the expense and of the records that hang on it. */
    method BookWage(project: int, labour: int, day: int, wage: int, owned: bool, exp: int, pay: int)
      modifies this`expenses, this`owners, this`journals
      ensures State() == Booked(old(State()), project, labour, day, wage, owned, exp, pay)
      ensures BooksWage(old(State()), State(), project, labour, day, wage, owned, exp, pay)
    {
      BookedHolds(State(), project, labour, day, wage, owned, exp, pay);
      var existing := FindAuto(expenses, project, labour, day);
      var id;
      if existing.Some? {
        id := existing.value;
        expenses := expenses[id := expenses[id].(amount := wage)];
        if id in owners {
          owners := owners[id := wage];
        }
      } else {
        id := |expenses|;
        expenses := expenses + [Expense(project, labour, day, wage, true)];
        if owned {
          owners := owners[id := wage];
        }
      }
      var number := L.WageNumber(id);
      if number !in journals {
        journals := journals[number := Journal(day, L.DebitCredit(exp, pay, wage))];
      } else {
        var lines := LedgerHandlers.RewriteLines(journals[number].lines, exp, pay, wage);
        journals := journals[number := Journal(day, lines)];
      }
    }

    method CheckOutUser(user: int, att: nat, hours: real, sunday: bool, labour: Option<Labour>, policy: Option<Policy>,
                        owned: bool, exp: Option<int>, pay: Option<int>) returns (ok: bool)
      modifies this
      ensures State() == Step(old(State()), CheckOut(user, att, hours, sunday, labour, policy, owned, exp, pay))
      ensures ok <==> att < |old(attendances)| && old(attendances)[att].user == user && !old(attendances)[att].out
                      && (labour.Some? ==> old(attendances)[att].project.Some? && exp.Some? && pay.Some?)
      ensures !ok ==> State() == old(State())
      ensures ok && labour.None? ==>
                && expenses == old(expenses) && owners == old(owners) && journals == old(journals)
                && attendances == old(attendances)[att := old(attendances)[att].(out := true, hours := hours)]
      ensures ok && labour.Some? ==>
                exists overtime, rate, wage ::
                  PaysOut(old(State()), State(), att, hours, sunday, labour.value, policy, owned, exp.value, pay.value,
                          overtime, rate, wage)
    {
      if att >= |attendances| || attendances[att].user != user || attendances[att].out {
        return false;
      }
      var a := attendances[att];
      if labour.None? {
        attendances := attendances[att := Closed(a, hours, a.overtime, a.rate)];
        return true;
      }
      if a.project.None? || exp.None? || pay.None? {
        return false;
      }
      var overtime, rate, wage := ComputeWage(labour.value, policy, sunday, hours);
      attendances := attendances[att := Closed(a, hours, overtime, rate)];
      BookWage(a.project.value, labour.value.id, a.day, wage, owned, exp.value, pay.value);
      assert PaysOut(old(State()), State(), att, hours, sunday, labour.value, policy, owned, exp.value, pay.value,
                     overtime, rate, wage);
      ok := true;
    }

    method ProxyCheckOutUser(att: nat, hours: real) returns (ok: bool)
      modifies this
      ensures State() == Step(old(State()), ProxyCheckOut(att, hours))
      ensures ok <==> att < |old(attendances)| && !old(attendances)[att].out
      ensures expenses == old(expenses) && owners == old(owners) && journals == old(journals)
      ensures if ok then attendances == old(attendances)[att := old(attendances)[att].(
                           out := true, hours := hours,
                           overtime := if hours > 8.0 then hours - 8.0 else old(attendances)[att].overtime)]
              else attendances == old(attendances)
    {
      if att >= |attendances| || attendances[att].out {
        return false;
      }
      var a := attendances[att];
      var overtime := a.overtime;
      if hours > 8.0 {
        overtime := hours - 8.0;
      }
      attendances := attendances[att := Closed(a, hours, overtime, a.rate)];
      ok := true;
    }
  }
}
