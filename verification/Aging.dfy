/** The vendor payables aging report of app/api/accountant.py. */
module Aging {
  import opened Prelude

  /**
   * A vendor bill joined with its supplier; `live` when it has a status other than REJECTED.
   * Amounts are in cents, days are numbered; a missing `paid` is a null column.
   */
  datatype Bill = Bill(vendor: Option<int>, project: int, live: bool, total: int, paid: Option<int>, due: Option<int>)

  datatype Sums = Sums(billed: int, paid: int, outstanding: int,
                       notDue: int, days1: int, days31: int, days61: int, days90: int)

  // ---------------------------------------------------------------- the aggregate query

  /** total - paid when that is positive; a null is never positive. */
  function Outstanding(b: Bill): int {
    if b.paid.Some? && b.total - b.paid.value > 0 then b.total - b.paid.value else 0
  }

  predicate NotDue(b: Bill, today: int) {
    b.due.None? || b.due.value >= today
  }

  /** Due in [from, to). */
  predicate DueIn(b: Bill, from: int, to: int) {
    b.due.Some? && from <= b.due.value < to
  }

  predicate DueBefore(b: Bill, day: int) {
    b.due.Some? && b.due.value < day
  }

  function When(c: bool, amount: int): int {
    if c then amount else 0
  }

  /** What one bill adds to each SUM of its group. */
  function Terms(b: Bill, today: int): Sums {
    var o := Outstanding(b);
    Sums(b.total, if b.paid.Some? then b.paid.value else 0, o,
         When(NotDue(b, today), o), When(DueIn(b, today - 30, today), o), When(DueIn(b, today - 60, today - 30), o),
         When(DueIn(b, today - 90, today - 60), o), When(DueBefore(b, today - 90), o))
  }

  function Plus(a: Sums, b: Sums): Sums {
    Sums(a.billed + b.billed, a.paid + b.paid, a.outstanding + b.outstanding,
         a.notDue + b.notDue, a.days1 + b.days1, a.days31 + b.days31, a.days61 + b.days61, a.days90 + b.days90)
  }

  /** The sums over the bills whose vendor is one of `vendors`. */
  function Total(bills: seq<Bill>, vendors: set<Option<int>>, today: int): Sums {
    if bills == [] then Sums(0, 0, 0, 0, 0, 0, 0, 0)
    else
      var b, rest := bills[|bills| - 1], Total(bills[..|bills| - 1], vendors, today);
      if b.vendor in vendors then Plus(rest, Terms(b, today)) else rest
  }

  /** The optional filters: a missing or zero id does not filter. */
  predicate Chosen(b: Bill, supplier: int, project: int) {
    b.live && (supplier != 0 ==> b.vendor == Some(supplier)) && (project != 0 ==> b.project == project)
  }

  function Select(bills: seq<Bill>, supplier: int, project: int): seq<Bill> {
    if bills == [] then []
    else
      var b := bills[|bills| - 1];
      Select(bills[..|bills| - 1], supplier, project) + (if Chosen(b, supplier, project) then [b] else [])
  }

  // ---------------------------------------------------------------- the five buckets

  /** A bill's debt goes by its age in days: not yet due, 1 to 30, 31 to 60, 61 to 90, or older. */
  lemma DebtGoesByAge(b: Bill, today: int, age: int)
    requires age == if b.due.Some? then today - b.due.value else 0
    ensures var t, o := Terms(b, today), Outstanding(b);
            && t.notDue == When(age <= 0, o) && t.days1 == When(1 <= age <= 30, o)
            && t.days31 == When(31 <= age <= 60, o)
            && t.days61 == When(61 <= age <= 90, o) && t.days90 == When(age > 90, o)
  {
  }

  ghost predicate Partition(whole: int, a: int, b: int, c: int, d: int, e: int) {
    a + b + c + d + e == whole && a >= 0 && b >= 0 && c >= 0 && d >= 0 && e >= 0
  }

  /** Each bill's debt lies in exactly one bucket, so the buckets of any group partition its debt. */
  lemma {:induction false} BucketsPartition(bills: seq<Bill>, vendors: set<Option<int>>, today: int)
    ensures var t := Total(bills, vendors, today);
            Partition(t.outstanding, t.notDue, t.days1, t.days31, t.days61, t.days90)
  {
    if bills != [] {
      BucketsPartition(bills[..|bills| - 1], vendors, today);
      var t := Terms(bills[|bills| - 1], today);
      assert Partition(t.outstanding, t.notDue, t.days1, t.days31, t.days61, t.days90);
    }
  }

  function Overpaid(bills: seq<Bill>, vendors: set<Option<int>>): int {
    if bills == [] then 0
    else
      var b := bills[|bills| - 1];
      Overpaid(bills[..|bills| - 1], vendors)
      + When(b.vendor in vendors, if b.paid.Some? then Max(0, b.paid.value - b.total) else 0)
  }

  function Unrecorded(bills: seq<Bill>, vendors: set<Option<int>>): int {
    if bills == [] then 0
    else
      var b := bills[|bills| - 1];
      Unrecorded(bills[..|bills| - 1], vendors) + When(b.vendor in vendors && b.paid.None?, b.total)
  }

  /** Outstanding exceeds billed minus paid by what was overpaid, less the bills whose payment is null. */
  lemma {:induction false} OutstandingIdentity(bills: seq<Bill>, vendors: set<Option<int>>, today: int)
    ensures var t := Total(bills, vendors, today);
            t.outstanding == t.billed - t.paid + Overpaid(bills, vendors) - Unrecorded(bills, vendors)
  {
    if bills != [] {
      OutstandingIdentity(bills[..|bills| - 1], vendors, today);
    }
  }

  predicate NullFree(bills: seq<Bill>) {
    forall i :: 0 <= i < |bills| ==> bills[i].paid.Some?
  }

  predicate NoneOverpaid(bills: seq<Bill>, vendors: set<Option<int>>) {
    forall i :: 0 <= i < |bills| && bills[i].vendor in vendors && bills[i].paid.Some? ==>
      bills[i].paid.value <= bills[i].total
  }

  lemma {:induction false} OverpaidIff(bills: seq<Bill>, vendors: set<Option<int>>)
    ensures Overpaid(bills, vendors) >= 0
    ensures Overpaid(bills, vendors) == 0 <==> NoneOverpaid(bills, vendors)
  {
    if bills != [] {
      var init := bills[..|bills| - 1];
      OverpaidIff(init, vendors);
      assert forall i :: 0 <= i < |init| ==> init[i] == bills[i];
    }
  }

  lemma {:induction false} NothingUnrecorded(bills: seq<Bill>, vendors: set<Option<int>>)
    requires NullFree(bills)
    ensures Unrecorded(bills, vendors) == 0
  {
    if bills != [] {
      NothingUnrecorded(bills[..|bills| - 1], vendors);
    }
  }

  /**
   * With every payment recorded: outstanding is at least billed minus paid, and equal exactly
   * when no bill of the group is overpaid.
   */
  lemma {:induction false} OutstandingIff(bills: seq<Bill>, vendors: set<Option<int>>, today: int)
    requires NullFree(bills)
    ensures var t := Total(bills, vendors, today);
            && t.outstanding >= t.billed - t.paid
            && (t.outstanding == t.billed - t.paid <==> NoneOverpaid(bills, vendors))
  {
    OutstandingIdentity(bills, vendors, today);
    OverpaidIff(bills, vendors);
    NothingUnrecorded(bills, vendors);
  }

  /** A single bill with a null payment is billed in full, yet owes nothing in any bucket. */
  lemma NullPaymentHidesDebt(b: Bill, today: int)
    requires b.paid.None? && b.total > 0
    ensures var t := Total([b], {b.vendor}, today); t.billed == b.total && t.paid == 0 && t.outstanding == 0
  {
  }

  // ---------------------------------------------------------------- groups

  ghost predicate Adds(whole: Sums, a: Sums, b: Sums) {
    whole == Plus(a, b)
  }

  lemma AddsMore(whole: Sums, a: Sums, b: Sums, x: Sums)
    requires Adds(whole, a, b)
    ensures Adds(Plus(whole, x), Plus(a, x), b) && Adds(Plus(whole, x), a, Plus(b, x))
  {
  }

  lemma {:induction false} TotalAdds(bills: seq<Bill>, vs: set<Option<int>>, v: Option<int>, today: int)
    requires v !in vs
    ensures Adds(Total(bills, vs + {v}, today), Total(bills, vs, today), Total(bills, {v}, today))
  {
    if bills != [] {
      var init, b := bills[..|bills| - 1], bills[|bills| - 1];
      TotalAdds(init, vs, v, today);
      AddsMore(Total(init, vs + {v}, today), Total(init, vs, today), Total(init, {v}, today), Terms(b, today));
    }
  }

  lemma {:induction false} TotalOfNone(bills: seq<Bill>, vs: set<Option<int>>, today: int)
    requires vs == {}
    ensures var t := Total(bills, vs, today);
            && t.billed == 0 && t.paid == 0 && t.outstanding == 0
            && t.notDue == 0 && t.days1 == 0 && t.days31 == 0 && t.days61 == 0 && t.days90 == 0
  {
    if bills != [] {
      TotalOfNone(bills[..|bills| - 1], vs, today);
    }
  }

  // ---------------------------------------------------------------- the report

  datatype Row = Row(vendor: int, sums: Sums)

  datatype Report = Report(totals: Sums, overdue: int, rows: seq<Row>)

  /** A missing or zero vendor id is skipped. */
  predicate Named(v: Option<int>) {
    v.Some? && v.value != 0
  }

  function NamedOf(order: seq<Option<int>>): set<Option<int>> {
    set v | v in order && Named(v)
  }

  /** The result of GROUP BY: one group for each vendor that occurs, in some order. */
  ghost predicate Groups(order: seq<Option<int>>, bills: seq<Bill>) {
    Distinct(order) && forall v :: v in order <==> exists i :: 0 <= i < |bills| && bills[i].vendor == v
  }

  /** One row for each named vendor, with the sums of that vendor's bills. */
  function RowsOf(bills: seq<Bill>, order: seq<Option<int>>, today: int): seq<Row> {
    if order == [] then []
    else
      var v := order[|order| - 1];
      RowsOf(bills, order[..|order| - 1], today) + (if Named(v) then [Row(v.value, Total(bills, {v}, today))] else [])
  }

  lemma {:induction false} RowsPartition(bills: seq<Bill>, order: seq<Option<int>>, today: int)
    ensures forall k :: 0 <= k < |RowsOf(bills, order, today)| ==>
              var t := RowsOf(bills, order, today)[k].sums;
              Partition(t.outstanding, t.notDue, t.days1, t.days31, t.days61, t.days90)
  {
    if order != [] {
      RowsPartition(bills, order[..|order| - 1], today);
      BucketsPartition(bills, {order[|order| - 1]}, today);
    }
  }

  lemma OneMoreGroup(bills: seq<Bill>, order: seq<Option<int>>, v: Option<int>, today: int)
    requires v !in order
    ensures Named(v) ==>
              Adds(Total(bills, NamedOf(order + [v]), today),
                   Total(bills, NamedOf(order), today), Total(bills, {v}, today))
    ensures !Named(v) ==> NamedOf(order + [v]) == NamedOf(order)
    ensures RowsOf(bills, order + [v], today)
         == RowsOf(bills, order, today) + (if Named(v) then [Row(v.value, Total(bills, {v}, today))] else [])
  {
    assert (order + [v])[..|order|] == order;
    if Named(v) {
      assert NamedOf(order + [v]) == NamedOf(order) + {v};
      TotalAdds(bills, NamedOf(order), v, today);
    } else {
      assert NamedOf(order + [v]) == NamedOf(order);
    }
  }

  // ---------------------------------------------------------------- the report on the bills

  /** The report's bills: live ones of the supplier and the project asked for, 0 asking for all. */
  ghost predicate Picks(b: Bill, supplier: int, project: int) {
    b.live && (supplier == 0 || b.vendor == Some(supplier)) && (project == 0 || b.project == project)
  }

  /** What a bill owes: what is left of its total, if anything; a bill with a null payment owes nothing. */
  ghost function Owes(b: Bill): int {
    match b.paid
    case None => 0
    case Some(paid) => if paid < b.total then b.total - paid else 0
  }

  /** Days past due; a bill without a due date is never late. */
  ghost function Late(b: Bill, today: int): int {
    match b.due
    case None => 0
    case Some(day) => today - day
  }

  /** What one bill adds to each sum of the report, its debt going by the days it is late. */
  ghost predicate AddsBill(t: Sums, b: Bill, today: int, t': Sums) {
    var late := Late(b, today);
    && t'.billed == t.billed + b.total
    && t'.paid == t.paid + (match b.paid case None => 0 case Some(p) => p)
    && t'.outstanding == t.outstanding + Owes(b)
    && t'.notDue == t.notDue + (if late <= 0 then Owes(b) else 0)
    && t'.days1 == t.days1 + (if 1 <= late <= 30 then Owes(b) else 0)
    && t'.days31 == t.days31 + (if 31 <= late <= 60 then Owes(b) else 0)
    && t'.days61 == t.days61 + (if 61 <= late <= 90 then Owes(b) else 0)
    && t'.days90 == t.days90 + (if late > 90 then Owes(b) else 0)
  }

  /** One more bill counts when it is picked and its vendor is among those summed; no bill, no sums. */
  lemma OneMoreBill(bills: seq<Bill>, b: Bill, supplier: int, project: int, vendors: set<Option<int>>, today: int)
    ensures var t, t' := Total(Select(bills, supplier, project), vendors, today),
                         Total(Select(bills + [b], supplier, project), vendors, today);
            if Picks(b, supplier, project) && b.vendor in vendors then AddsBill(t, b, today, t') else t' == t
    ensures Total(Select([], supplier, project), vendors, today) == Sums(0, 0, 0, 0, 0, 0, 0, 0)
  {
    assert (bills + [b])[..|bills|] == bills;
    var chosen := Select(bills, supplier, project);
    if Chosen(b, supplier, project) {
      assert (chosen + [b])[..|chosen|] == chosen;
    } else {
      assert chosen + [] == chosen;
    }
  }

  /** The rows: one for each vendor of the groups that has an id other than 0, in group order. */
  ghost predicate RowPerVendor(rows: seq<Row>, bills: seq<Bill>, order: seq<Option<int>>, today: int, js: seq<int>) {
    && |js| == |rows| && (forall i, j :: 0 <= i < j < |js| ==> js[i] < js[j])
    && (forall j :: j in js <==> 0 <= j < |order| && order[j] != None && order[j] != Some(0))
    && forall k :: 0 <= k < |js| && 0 <= js[k] < |order| ==>
         order[js[k]] == Some(rows[k].vendor) && rows[k].sums == Total(bills, {order[js[k]]}, today)
  }

  lemma RowsOneMore(rows: seq<Row>, bills: seq<Bill>, order: seq<Option<int>>, today: int, js: seq<int>, v: Option<int>)
    requires RowPerVendor(rows, bills, order, today, js)
    ensures Named(v) ==>
              RowPerVendor(rows + [Row(v.value, Total(bills, {v}, today))], bills, order + [v], today, js + [|order|])
    ensures !Named(v) ==> RowPerVendor(rows, bills, order + [v], today, js)
  {
    assert forall k :: 0 <= k < |js| ==> js[k] in js;
    assert forall j :: j in js + [|order|] <==> j in js || j == |order|;
  }

  lemma {:induction false} RowsOfVendors(bills: seq<Bill>, order: seq<Option<int>>, today: int) returns (js: seq<int>)
    ensures RowPerVendor(RowsOf(bills, order, today), bills, order, today, js)
  {
    js := [];
    if order != [] {
      var init, v := order[..|order| - 1], order[|order| - 1];
      js := RowsOfVendors(bills, init, today);
      RowsOneMore(RowsOf(bills, init, today), bills, init, today, js, v);
      assert order == init + [v] && RowsOf(bills, init, today) + [] == RowsOf(bills, init, today);
      js := if Named(v) then js + [|init|] else js;
    }
  }

  /** The vendors the totals are taken over. */
  lemma NamedOfMeans(order: seq<Option<int>>, v: Option<int>)
    ensures v in NamedOf(order) <==> v in order && v != None && v != Some(0)
  {
  }

  /** The loop over the groups: one row each, their sums added up. */
  method SumGroups(bills: seq<Bill>, order: seq<Option<int>>, today: int) returns (totals: Sums, rows: seq<Row>)
    requires Distinct(order)
    ensures rows == RowsOf(bills, order, today)
    ensures totals == Total(bills, NamedOf(order), today)
  {
    totals, rows := Sums(0, 0, 0, 0, 0, 0, 0, 0), [];
    TotalOfNone(bills, NamedOf(order[..0]), today);
    for i := 0 to |order|
      invariant totals == Total(bills, NamedOf(order[..i]), today)
      invariant rows == RowsOf(bills, order[..i], today)
    {
      OneMoreGroup(bills, order[..i], order[i], today);
      assert order[..i + 1] == order[..i] + [order[i]];
      if Named(order[i]) {
        var sums := Total(bills, {order[i]}, today);
        totals := Plus(totals, sums);
        rows := rows + [Row(order[i].value, sums)];
      }
    }
    assert order[..|order|] == order;
  }

  /**
   * The report: every row and the totals split outstanding into the five buckets, and what
   * is overdue overall is exactly the four late buckets.
   */
  method VendorPayablesAging(bills: seq<Bill>, supplier: int, project: int, order: seq<Option<int>>, today: int)
    returns (r: Report)
    requires Groups(order, Select(bills, supplier, project))
    ensures r.rows == RowsOf(Select(bills, supplier, project), order, today)
    ensures forall k :: 0 <= k < |r.rows| ==>
              var t := r.rows[k].sums;
              Partition(t.outstanding, t.notDue, t.days1, t.days31, t.days61, t.days90)
    ensures r.totals == Total(Select(bills, supplier, project), NamedOf(order), today)
    ensures var t := r.totals; Partition(t.outstanding, t.notDue, t.days1, t.days31, t.days61, t.days90)
    ensures r.overdue == r.totals.days1 + r.totals.days31 + r.totals.days61 + r.totals.days90
    ensures exists js :: RowPerVendor(r.rows, Select(bills, supplier, project), order, today, js)
  {
    ghost var js := RowsOfVendors(Select(bills, supplier, project), order, today);
    var chosen := Select(bills, supplier, project);
    var totals, rows := SumGroups(chosen, order, today);
    RowsPartition(chosen, order, today);
    BucketsPartition(chosen, NamedOf(order), today);
    r := Report(totals, totals.outstanding - totals.notDue, rows);
  }

  /** The sums over all bills. */
  function Whole(bills: seq<Bill>, today: int): Sums {
    if bills == [] then Sums(0, 0, 0, 0, 0, 0, 0, 0)
    else Plus(Whole(bills[..|bills| - 1], today), Terms(bills[|bills| - 1], today))
  }

  /** When every selected bill has a named vendor, as the schema demands, no total leaves a bill out. */
  lemma {:induction false} TotalsLeaveNoBillOut(bills: seq<Bill>, vendors: set<Option<int>>, today: int)
    requires forall i :: 0 <= i < |bills| ==> bills[i].vendor in vendors
    ensures Total(bills, vendors, today) == Whole(bills, today)
  {
    if bills != [] {
      TotalsLeaveNoBillOut(bills[..|bills| - 1], vendors, today);
    }
  }

  /** So the report's totals are those of all selected bills. */
  lemma ReportCoversAll(bills: seq<Bill>, order: seq<Option<int>>, today: int)
    requires Groups(order, bills) && forall i :: 0 <= i < |bills| ==> Named(bills[i].vendor)
    ensures Total(bills, NamedOf(order), today) == Whole(bills, today)
  {
    assert forall i :: 0 <= i < |bills| ==> bills[i].vendor in order;
    TotalsLeaveNoBillOut(bills, NamedOf(order), today);
  }
}
