/** The payables reports of app/api/accountant.py over bills and their payments. Amounts are cents. */
module Payables {
  import opened Prelude
  import opened Billing
  import BillingRuns
  import Text

  datatype Ra = Ra(id: int, total: int)

  datatype Standing = Settled | PartlyPaid | Unpaid

  datatype Item = Item(id: int, total: int, paid: int, pending: int, status: Standing)

  datatype Summary = Summary(total: int, paid: int, pending: int)

  function PaidFor(payments: seq<Payment>, ra: Ra): int {
    PaidOn(payments, Link(ra.id))
  }

  function ItemFor(payments: seq<Payment>, ra: Ra): Item {
    var paid := PaidFor(payments, ra);
    var pending := ra.total - paid;
    Item(ra.id, ra.total, paid, pending,
         if pending == 0 then Settled else if paid > 0 then PartlyPaid else Unpaid)
  }

  function AllItems(payments: seq<Payment>, rows: seq<Ra>): seq<Item> {
    if rows == [] then []
    else AllItems(payments, rows[..|rows| - 1]) + [ItemFor(payments, rows[|rows| - 1])]
  }

  /** The bills with something left to pay. */
  function Outstanding(items: seq<Item>): seq<Item> {
    if items == [] then []
    else
      var last := items[|items| - 1];
      Outstanding(items[..|items| - 1]) + (if last.pending <= 0 then [] else [last])
  }

  function SumUp(items: seq<Item>): Summary {
    if items == [] then Summary(0, 0, 0)
    else
      var s, x := SumUp(items[..|items| - 1]), items[|items| - 1];
      Summary(s.total + x.total, s.paid + x.paid, s.pending + x.pending)
  }

  ghost predicate NothingOverpaid(items: seq<Item>) {
    forall x :: x in items ==> x.paid <= x.total
  }

  ghost predicate Consistent(items: seq<Item>) {
    forall x :: x in items ==> x.pending == x.total - x.paid
  }

  lemma {:induction false} AppendItem(items: seq<Item>, x: Item)
    ensures var s := SumUp(items);
            SumUp(items + [x]) == Summary(s.total + x.total, s.paid + x.paid, s.pending + x.pending)
  {
  }

  lemma {:induction false} AppendOutstanding(items: seq<Item>, x: Item)
    ensures Outstanding(items + [x]) == if x.pending <= 0 then Outstanding(items) else Outstanding(items) + [x]
  {
  }

  /** The first n bills that have something left to pay. */
  function Listed(payments: seq<Payment>, rows: seq<Ra>, n: nat): seq<Item>
    requires n <= |rows|
  {
    Outstanding(AllItems(payments, rows[..n]))
  }

  /** One more bill is listed when something is left to pay. */
  lemma OneMoreBill(payments: seq<Payment>, rows: seq<Ra>, n: nat)
    requires n < |rows|
    ensures Listed(payments, rows, n + 1)
         == var x := ItemFor(payments, rows[n]);
            if x.pending <= 0 then Listed(payments, rows, n) else Listed(payments, rows, n) + [x]
  {
    assert rows[..n + 1][..n] == rows[..n];
    AppendOutstanding(AllItems(payments, rows[..n]), ItemFor(payments, rows[n]));
  }

  lemma {:induction false} ItemsAreConsistent(payments: seq<Payment>, rows: seq<Ra>)
    ensures Consistent(AllItems(payments, rows)) && |AllItems(payments, rows)| == |rows|
  {
    if rows != [] {
      ItemsAreConsistent(payments, rows[..|rows| - 1]);
    }
  }

  lemma {:induction false} OutstandingCoversPending(items: seq<Item>)
    requires Consistent(items)
    ensures SumUp(items).total == SumUp(items).paid + SumUp(items).pending
    ensures SumUp(Outstanding(items)).pending >= SumUp(items).pending
    ensures SumUp(Outstanding(items)).pending == SumUp(items).pending <==> NothingOverpaid(items)
  {
    if items != [] {
      var init, x := items[..|items| - 1], items[|items| - 1];
      assert items == init + [x];
      OutstandingCoversPending(init);
      AppendItem(init, x);
      AppendItem(Outstanding(init), x);
      AppendOutstanding(init, x);
      assert x in items;
    }
  }

  /**
   * The summary is total = paid + pending, and its pending equals the sum of the
   * outstanding list exactly when no listed bill is overpaid (that list skips
   * negative balances, the summary counts them).
   */
  lemma SummaryMatchesLists(payments: seq<Payment>, rows: seq<Ra>)
    ensures var items := AllItems(payments, rows);
            var s := SumUp(items);
            && s.total == s.paid + s.pending
            && (s.pending == SumUp(Outstanding(items)).pending <==> NothingOverpaid(items))
  {
    ItemsAreConsistent(payments, rows);
    OutstandingCoversPending(AllItems(payments, rows));
  }

  // ---------------------------------------------------------------- the lists on the rows

  /** A bill with what is recorded on its own link, and what that leaves. */
  ghost predicate Shows(payments: seq<Payment>, ra: Ra, x: Item) {
    && x.id == ra.id && x.total == ra.total && x.paid == PaidOn(payments, "ra:" + Text.IntText(ra.id))
    && x.pending == ra.total - x.paid
    && x.status == if x.paid == ra.total then Settled else if x.paid > 0 then PartlyPaid else Unpaid
  }

  lemma ItemsGrow(payments: seq<Payment>, rows: seq<Ra>, n: nat)
    requires n < |rows|
    ensures AllItems(payments, rows[..n + 1]) == AllItems(payments, rows[..n]) + [ItemFor(payments, rows[n])]
  {
    assert rows[..n + 1][..n] == rows[..n];
  }

  ghost predicate ShowsAll(payments: seq<Payment>, rows: seq<Ra>, items: seq<Item>) {
    |items| == |rows| && forall i :: 0 <= i < |rows| ==> Shows(payments, rows[i], items[i])
  }

  lemma ShowsOneMore(payments: seq<Payment>, rows: seq<Ra>, items: seq<Item>, ra: Ra)
    requires ShowsAll(payments, rows, items)
    ensures ShowsAll(payments, rows + [ra], items + [ItemFor(payments, ra)])
  {
  }

  lemma {:induction false} ItemsShow(payments: seq<Payment>, rows: seq<Ra>)
    ensures ShowsAll(payments, rows, AllItems(payments, rows))
  {
    if rows != [] {
      var init, ra := rows[..|rows| - 1], rows[|rows| - 1];
      ItemsShow(payments, init);
      ShowsOneMore(payments, init, AllItems(payments, init), ra);
      assert rows == init + [ra];
    }
  }

  /** The items with something left to pay, and no others, in order. */
  ghost predicate KeepsUnpaid(items: seq<Item>, kept: seq<Item>, js: seq<int>) {
    && |js| == |kept| && (forall i, j :: 0 <= i < j < |js| ==> js[i] < js[j])
    && (forall j :: j in js <==> 0 <= j < |items| && items[j].pending > 0)
    && forall k :: 0 <= k < |js| && 0 <= js[k] < |items| ==> kept[k] == items[js[k]]
  }

  lemma KeepsOneMore(items: seq<Item>, kept: seq<Item>, js: seq<int>, x: Item)
    requires KeepsUnpaid(items, kept, js)
    ensures x.pending > 0 ==> KeepsUnpaid(items + [x], kept + [x], js + [|items|])
    ensures x.pending <= 0 ==> KeepsUnpaid(items + [x], kept, js)
  {
    assert forall k :: 0 <= k < |js| ==> js[k] in js;
    assert forall j :: j in js + [|items|] <==> j in js || j == |items|;
  }

  lemma {:induction false} OutstandingKeeps(items: seq<Item>) returns (js: seq<int>)
    ensures KeepsUnpaid(items, Outstanding(items), js)
  {
    js := [];
    if items != [] {
      var init, x := items[..|items| - 1], items[|items| - 1];
      js := OutstandingKeeps(init);
      KeepsOneMore(init, Outstanding(init), js, x);
      AppendOutstanding(init, x);
      assert items == init + [x];
      js := if x.pending > 0 then js + [|init|] else js;
    }
  }

  /** The rows are bills of the office, in any order, perhaps filtered. */
  ghost predicate Lists(rows: seq<Ra>, s: Office) {
    forall ra :: ra in rows ==> ra.id in s.bills && ra.total == s.bills[ra.id].total
  }

  lemma {:induction false} NothingOverpaidIn(s: Office, rows: seq<Ra>)
    requires BillingRuns.PaidWithin(s) && Lists(rows, s)
    ensures NothingOverpaid(AllItems(s.payments, rows))
  {
    if rows != [] {
      var init, ra := rows[..|rows| - 1], rows[|rows| - 1];
      assert ra in rows && forall x :: x in init ==> x in rows;
      NothingOverpaidIn(s, init);
    }
  }

  /**
   * Over every run of billing, approvals and payments whose repricings, payments and
   * conversions respect what is paid, the summary's pending is the sum of the outstanding list.
   */
  lemma SummaryMatchesListsOverRuns(es: seq<Event>, rows: seq<Ra>)
    requires BillingRuns.AlwaysRespectsPaid(EMPTY, es) && Lists(rows, Run(EMPTY, es))
    ensures var items := AllItems(Run(EMPTY, es).payments, rows);
            SumUp(items).pending == SumUp(Outstanding(items)).pending
  {
    var s := Run(EMPTY, es);
    BillingRuns.PaidWithinOverRuns(EMPTY, es);
    NothingOverpaidIn(s, rows);
    SummaryMatchesLists(s.payments, rows);
  }

  // ---------------------------------------------------------------- the reports

  /** All recorded payments, grouped by what they are linked to. */
  ghost predicate Groups(paidMap: map<string, int>, payments: seq<Payment>) {
    forall link :: (if link in paidMap then paidMap[link] else 0) == PaidOn(payments, link)
  }

  lemma {:induction false} PaidOnInit(payments: seq<Payment>, link: string)
    requires payments != []
    ensures var n := |payments| - 1;
            PaidOn(payments, link) ==
            PaidOn(payments[..n], link) + (if payments[n].linkedTo == link then payments[n].amount else 0)
  {
    var n := |payments| - 1;
    if n > 0 {
      PaidOnInit(payments[1..], link);
      assert payments[1..][..n - 1] == payments[..n][1..];
    }
  }

  method GroupPayments(payments: seq<Payment>) returns (paidMap: map<string, int>)
    ensures Groups(paidMap, payments)
  {
    paidMap := map[];
    for i := 0 to |payments|
      invariant Groups(paidMap, payments[..i])
    {
      var p := payments[i];
      forall link
        ensures PaidOn(payments[..i + 1], link) ==
                PaidOn(payments[..i], link) + (if p.linkedTo == link then p.amount else 0)
      {
        PaidOnInit(payments[..i + 1], link);
        assert payments[..i + 1][..i] == payments[..i];
      }
      var before := if p.linkedTo in paidMap then paidMap[p.linkedTo] else 0;
      paidMap := paidMap[p.linkedTo := before + p.amount];
    }
    assert payments[..|payments|] == payments;
  }

  method Lookup(paidMap: map<string, int>, ghost payments: seq<Payment>, ra: Ra) returns (paid: int)
    requires Groups(paidMap, payments)
    ensures paid == PaidFor(payments, ra)
  {
    var key := Link(ra.id);
    paid := if key in paidMap then paidMap[key] else 0;
  }

  method ListPayables(payments: seq<Payment>, rows: seq<Ra>) returns (items: seq<Item>)
    ensures items == AllItems(payments, rows)
    ensures ShowsAll(payments, rows, items)
  {
    ItemsShow(payments, rows);
    var paidMap := GroupPayments(payments);
    items := [];
    for i := 0 to |rows|
      invariant items == AllItems(payments, rows[..i])
    {
      var ra := rows[i];
      ItemsGrow(payments, rows, i);
      var paid := Lookup(paidMap, payments, ra);
      var pending := ra.total - paid;
      var status;
      if pending == 0 {
        status := Settled;
      } else if paid > 0 {
        status := PartlyPaid;
      } else {
        status := Unpaid;
      }
      items := items + [Item(ra.id, ra.total, paid, pending, status)];
    }
    assert rows[..|rows|] == rows;
  }

  method OutstandingPayables(payments: seq<Payment>, rows: seq<Ra>) returns (items: seq<Item>)
    ensures items == Outstanding(AllItems(payments, rows))
    ensures exists js :: KeepsUnpaid(AllItems(payments, rows), items, js)
  {
    ghost var js := OutstandingKeeps(AllItems(payments, rows));
    var paidMap := GroupPayments(payments);
    items := [];
    for i := 0 to |rows|
      invariant items == Listed(payments, rows, i)
    {
      OneMoreBill(payments, rows, i);
      var item := OutstandingItem(paidMap, payments, rows[i]);
      if item.Some? {
        items := items + [item.value];
      }
    }
    assert rows[..|rows|] == rows;
  }

  /** One round of that loop: bills with nothing left to pay are skipped. */
  method OutstandingItem(paidMap: map<string, int>, ghost payments: seq<Payment>, ra: Ra) returns (item: Option<Item>)
    requires Groups(paidMap, payments)
    ensures item == if ItemFor(payments, ra).pending <= 0 then None else Some(ItemFor(payments, ra))
  {
    var paid := Lookup(paidMap, payments, ra);
    var pending := ra.total - paid;
    if pending <= 0 {
      return None;
    }
    return Some(Item(ra.id, ra.total, paid, pending, if paid > 0 then PartlyPaid else Unpaid));
  }

  method PayableSummary(payments: seq<Payment>, rows: seq<Ra>) returns (s: Summary)
    ensures s == SumUp(AllItems(payments, rows))
    ensures s.total == s.paid + s.pending
  {
    var paidMap := GroupPayments(payments);
    var total, paid, pending := 0, 0, 0;
    for i := 0 to |rows|
      invariant Summary(total, paid, pending) == SumUp(AllItems(payments, rows[..i]))
    {
      var ra := rows[i];
      assert rows[..i + 1][..i] == rows[..i];
      AppendItem(AllItems(payments, rows[..i]), ItemFor(payments, ra));
      var paidAmt := Lookup(paidMap, payments, ra);
      total := total + ra.total;
      paid := paid + paidAmt;
      pending := pending + (ra.total - paidAmt);
    }
    assert rows[..|rows|] == rows;
    s := Summary(total, paid, pending);
    SummaryMatchesLists(payments, rows);
  }
}
