/** The billing reconciliation report of app/api/accountant.py: one listing paged out of two tables. */
module TwoSource {
  import opened Prelude

  /** Rows as filtered and ordered by id; amounts in cents. */
  datatype Invoice = Invoice(id: int, total: int, paid: int, pending: int)

  datatype RaBill = RaBill(id: int, total: int, isPaid: bool)

  datatype Source = FromInvoice | FromRaBill

  datatype Item = Item(source: Source, id: int, billed: int, paid: int, outstanding: int, discrepancy: bool)

  function InvoiceItem(x: Invoice): Item {
    Item(FromInvoice, x.id, x.total, x.paid, x.pending, x.pending != x.total - x.paid)
  }

  /** An RA bill counts as received in full once it is Paid, and not at all before. */
  function RaItem(x: RaBill): Item {
    var paid := if x.isPaid then x.total else 0;
    Item(FromRaBill, x.id, x.total, paid, x.total - paid, false)
  }

  function InvoiceItems(xs: seq<Invoice>): seq<Item> {
    seq(|xs|, i requires 0 <= i < |xs| => InvoiceItem(xs[i]))
  }

  function RaItems(xs: seq<RaBill>): seq<Item> {
    seq(|xs|, i requires 0 <= i < |xs| => RaItem(xs[i]))
  }

  /** The whole listing: invoices, then RA bills. */
  function Listing(invoices: seq<Invoice>, bills: seq<RaBill>): seq<Item> {
    InvoiceItems(invoices) + RaItems(bills)
  }

  /** OFFSET and LIMIT. */
  function Slice<T>(xs: seq<T>, skip: nat, limit: nat): seq<T> {
    if skip >= |xs| then [] else if skip + limit >= |xs| then xs[skip..] else xs[skip..skip + limit]
  }

  // ---------------------------------------------------------------- the listing on the rows

  /** An invoice as it stands, flagged when pending is not total less paid; a bill is all paid or all outstanding. */
  ghost predicate ShowsInvoice(x: Invoice, y: Item) {
    && y.source == FromInvoice && y.id == x.id && y.billed == x.total && y.paid == x.paid && y.outstanding == x.pending
    && (y.discrepancy <==> x.pending != x.total - x.paid)
  }

  ghost predicate ShowsBill(x: RaBill, y: Item) {
    && y.source == FromRaBill && y.id == x.id && y.billed == x.total && !y.discrepancy
    && if x.isPaid then y.paid == x.total && y.outstanding == 0 else y.paid == 0 && y.outstanding == x.total
  }

  /** The k-th item of a page shows the row at skip + k, counting the bills behind the invoices. */
  ghost predicate IsPage(invoices: seq<Invoice>, bills: seq<RaBill>, skip: nat, limit: nat, items: seq<Item>) {
    var n := |invoices| + |bills|;
    && |items| == (if n <= skip then 0 else if n - skip < limit then n - skip else limit)
    && forall k :: 0 <= k < |items| ==>
         var j := skip + k;
         if j < |invoices| then ShowsInvoice(invoices[j], items[k])
         else j - |invoices| < |bills| && ShowsBill(bills[j - |invoices|], items[k])
  }

  lemma SliceIsPage(invoices: seq<Invoice>, bills: seq<RaBill>, skip: nat, limit: nat)
    ensures IsPage(invoices, bills, skip, limit, Slice(Listing(invoices, bills), skip, limit))
  {
    var all, page := Listing(invoices, bills), Slice(Listing(invoices, bills), skip, limit);
    assert |all| == |invoices| + |bills|;
    assert forall k :: 0 <= k < |page| ==> page[k] == all[skip + k];
  }

  // ---------------------------------------------------------------- paging

  /** A slice of a concatenation takes what it can from the first part and the rest from the second. */
  lemma SliceConcat<T>(xs: seq<T>, ys: seq<T>, skip: nat, limit: nat)
    ensures |Slice(xs, skip, limit)| <= limit
    ensures Slice(xs + ys, skip, limit)
         == Slice(xs, skip, limit) + Slice(ys, Max(0, skip - |xs|), limit - |Slice(xs, skip, limit)|)
  {
    var zs := xs + ys;
    if skip >= |xs| {
      assert zs[|xs|..] == ys;
      assert forall i, j :: |xs| <= i <= j <= |zs| ==> zs[i..j] == ys[i - |xs|..j - |xs|];
    } else if skip + limit <= |xs| {
      assert zs[skip..skip + limit] == xs[skip..skip + limit];
    } else {
      assert zs[skip..] == xs[skip..] + ys;
      assert skip + limit <= |zs| ==> zs[skip..skip + limit] == xs[skip..] + ys[..skip + limit - |xs|];
    }
  }

  /** The loop over the selected invoices. */
  method InvoiceRows(rows: seq<Invoice>) returns (items: seq<Item>)
    ensures items == InvoiceItems(rows)
  {
    items := [];
    for i := 0 to |rows|
      invariant |items| == i && forall k :: 0 <= k < i ==> items[k] == InvoiceItem(rows[k])
    {
      items := items + [InvoiceItem(rows[i])];
    }
  }

  /** The loop over the selected RA bills. */
  method RaRows(rows: seq<RaBill>) returns (items: seq<Item>)
    ensures items == RaItems(rows)
  {
    items := [];
    for i := 0 to |rows|
      invariant |items| == i && forall k :: 0 <= k < i ==> items[k] == RaItem(rows[k])
    {
      items := items + [RaItem(rows[i])];
    }
  }

  lemma ItemsOfSlice(invoices: seq<Invoice>, bills: seq<RaBill>, skip: nat, limit: nat)
    ensures InvoiceItems(Slice(invoices, skip, limit)) == Slice(InvoiceItems(invoices), skip, limit)
    ensures RaItems(Slice(bills, skip, limit)) == Slice(RaItems(bills), skip, limit)
  {
  }

  /** One page, queried from the first table, the second, or both. */
  method PageItems(invoices: seq<Invoice>, bills: seq<RaBill>, skip: nat, limit: nat) returns (items: seq<Item>)
    ensures items == Slice(Listing(invoices, bills), skip, limit)
    ensures IsPage(invoices, bills, skip, limit, items)
  {
    SliceConcat(InvoiceItems(invoices), RaItems(bills), skip, limit);
    items := [];
    var invCount := |invoices|;
    if skip < invCount {
      var invLimit := Min(limit, invCount - skip);
      items := InvoiceRows(Slice(invoices, skip, invLimit));
      assert Slice(invoices, skip, invLimit) == Slice(invoices, skip, limit);
      ItemsOfSlice(invoices, bills, skip, limit);
    }
    assert items == Slice(InvoiceItems(invoices), skip, limit);
    if |items| < limit {
      var raSkip, raLimit := Max(0, skip - invCount), limit - |items|;
      var more := RaRows(Slice(bills, raSkip, raLimit));
      ItemsOfSlice(invoices, bills, raSkip, raLimit);
      items := items + more;
    }
    SliceIsPage(invoices, bills, skip, limit);
  }

  /** Consecutive pages from `skip` on. */
  function Pages<T>(xs: seq<T>, skip: nat, limit: nat, count: nat): seq<T>
    decreases count
  {
    if count == 0 then [] else Slice(xs, skip, limit) + Pages(xs, skip + limit, limit, count - 1)
  }

  lemma {:induction false} PagesPast<T>(xs: seq<T>, skip: nat, limit: nat, count: nat)
    requires skip >= |xs|
    ensures Pages(xs, skip, limit, count) == []
    decreases count
  {
    if count > 0 {
      PagesPast(xs, skip + limit, limit, count - 1);
    }
  }

  lemma OnePage<T>(xs: seq<T>, skip: nat, limit: nat)
    requires skip <= |xs|
    ensures skip + limit < |xs| ==> Slice(xs, skip, limit) + xs[skip + limit..] == xs[skip..]
    ensures skip + limit >= |xs| ==> Slice(xs, skip, limit) + [] == xs[skip..]
  {
  }

  lemma {:induction false} PagesFrom<T>(xs: seq<T>, skip: nat, limit: nat, count: nat)
    requires limit >= 1 && skip <= |xs| <= skip + count
    ensures Pages(xs, skip, limit, count) == xs[skip..]
    decreases count
  {
    if count > 0 {
      OnePage(xs, skip, limit);
      if skip + limit < |xs| {
        PagesFrom(xs, skip + limit, limit, count - 1);
      } else {
        PagesPast(xs, skip + limit, limit, count - 1);
      }
    }
  }

  /** Consecutive pages tile the listing: each item appears once, in order. */
  lemma PagesTile<T>(xs: seq<T>, limit: nat, count: nat)
    requires limit >= 1 && count >= |xs|
    ensures Pages(xs, 0, limit, count) == xs
  {
    PagesFrom(xs, 0, limit, count);
  }

  // ---------------------------------------------------------------- the summary

  datatype Totals = Totals(billed: int, received: int, outstanding: int)

  function Billed(items: seq<Item>): int {
    if items == [] then 0 else items[0].billed + Billed(items[1..])
  }

  function Received(items: seq<Item>): int {
    if items == [] then 0 else items[0].paid + Received(items[1..])
  }

  function Outstanding(items: seq<Item>): int {
    if items == [] then 0 else items[0].outstanding + Outstanding(items[1..])
  }

  lemma {:induction false} SumsConcat(xs: seq<Item>, ys: seq<Item>)
    ensures Billed(xs + ys) == Billed(xs) + Billed(ys)
    ensures Received(xs + ys) == Received(xs) + Received(ys)
    ensures Outstanding(xs + ys) == Outstanding(xs) + Outstanding(ys)
  {
    if xs == [] {
      assert xs + ys == ys;
    } else {
      assert (xs + ys)[1..] == xs[1..] + ys;
      SumsConcat(xs[1..], ys);
    }
  }

  lemma {:induction false} SumsAppend(xs: seq<Item>, x: Item)
    ensures Billed(xs + [x]) == Billed(xs) + x.billed
    ensures Received(xs + [x]) == Received(xs) + x.paid
    ensures Outstanding(xs + [x]) == Outstanding(xs) + x.outstanding
  {
    SumsConcat(xs, [x]);
  }

  /** The aggregate queries: RA outstanding is total minus the total of the paid ones. */
  method SummaryTotals(invoices: seq<Invoice>, bills: seq<RaBill>) returns (t: Totals)
    ensures var all := Listing(invoices, bills); t == Totals(Billed(all), Received(all), Outstanding(all))
  {
    var tot, paid, pend := 0, 0, 0;
    for i := 0 to |invoices|
      invariant var s := InvoiceItems(invoices[..i]); tot == Billed(s) && paid == Received(s) && pend == Outstanding(s)
    {
      assert InvoiceItems(invoices[..i + 1]) == InvoiceItems(invoices[..i]) + [InvoiceItem(invoices[i])];
      SumsAppend(InvoiceItems(invoices[..i]), InvoiceItem(invoices[i]));
      tot, paid, pend := tot + invoices[i].total, paid + invoices[i].paid, pend + invoices[i].pending;
    }
    assert invoices[..|invoices|] == invoices;
    var raTot, raPaid := 0, 0;
    for i := 0 to |bills|
      invariant var s := RaItems(bills[..i]);
                raTot == Billed(s) && raPaid == Received(s) && raTot - raPaid == Outstanding(s)
    {
      assert RaItems(bills[..i + 1]) == RaItems(bills[..i]) + [RaItem(bills[i])];
      SumsAppend(RaItems(bills[..i]), RaItem(bills[i]));
      raTot := raTot + bills[i].total;
      if bills[i].isPaid {
        raPaid := raPaid + bills[i].total;
      }
    }
    assert bills[..|bills|] == bills;
    SumsConcat(InvoiceItems(invoices), RaItems(bills));
    t := Totals(tot + raTot, paid + raPaid, pend + (raTot - raPaid));
  }

  /** The summary's totals are the sums over the items of all pages. */
  lemma SummaryIsSumOfPages(invoices: seq<Invoice>, bills: seq<RaBill>, limit: nat, count: nat)
    requires limit >= 1 && count >= |invoices| + |bills|
    ensures var all, pages := Listing(invoices, bills), Pages(Listing(invoices, bills), 0, limit, count);
            Billed(pages) == Billed(all) && Received(pages) == Received(all) && Outstanding(pages) == Outstanding(all)
  {
    PagesTile(Listing(invoices, bills), limit, count);
  }
}
