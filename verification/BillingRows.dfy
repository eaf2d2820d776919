/** What the calls on bills, approvals and payments do, told on the rows themselves. */
module BillingRows {
  import opened Prelude
  import opened Money
  import opened Billing
  import opened Text

  // ---------------------------------------------------------------- amounts

  ghost function Given<T>(field: Option<T>, stored: T): T {
    match field case Some(v) => v case None => stored
  }

  /** A row as stored: every amount is computed exactly from the factors, and kept to the cent. */
  ghost predicate Stores(b: Bill, quantity: real, rate: real, deductions: real, percent: real) {
    && b.quantity == Thousandths(quantity) && b.rate == Hundredths(rate) && b.gstPercent == Hundredths(percent)
    && KeptAs(deductions, b.deductions) && Amounts(b, quantity * rate * 100.0, deductions, percent)
  }

  ghost predicate Amounts(b: Bill, gross: real, deductions: real, percent: real) {
    && KeptAs(gross, b.gross) && KeptAs(gross - deductions, b.net)
    && KeptAs((gross - deductions) + (gross - deductions) * percent / 100.0, b.total)
  }

  lemma AmountsHold(b: Bill, gross: real, deductions: real, percent: real)
    requires b.gross == Stored(gross) && b.net == Stored(gross - deductions)
    requires b.total == Stored(WithGst(gross - deductions, percent))
    ensures Amounts(b, gross, deductions, percent)
  {
    StoredIsNearest(gross, b.gross);
    StoredIsNearest(gross - deductions, b.net);
    StoredIsNearest(WithGst(gross - deductions, percent), b.total);
  }

  /** The deductions do not exceed the gross. */
  ghost predicate Covers(quantity: real, rate: real, deductions: real) {
    deductions <= quantity * rate * 100.0
  }

  lemma PricedStores(quantity: real, rate: real, deductions: real, percent: real, st: Status)
    ensures var p := Priced(quantity, rate, deductions, percent, st);
            && (p.Some? <==> Covers(quantity, rate, deductions))
            && (p.Some? ==> Stores(p.value, quantity, rate, deductions, percent) && p.value.status == st)
  {
    StoredIsNearest(deductions, Stored(deductions));
    var p := Priced(quantity, rate, deductions, percent, st);
    if p.Some? {
      AmountsHold(p.value, Gross(quantity, rate), deductions, percent);
    }
  }

  ghost predicate Sensible(quantity: real, rate: real, deductions: real, percent: real) {
    quantity > 0.0 && rate > 0.0 && deductions >= 0.0 && percent >= 0.0
  }

  /** A new Draft under the next number, with one pending request of its creator. */
  ghost predicate Creates(s: Office, s': Office, user: int,
                          quantity: real, rate: real, deductions: real, percent: real)
  {
    && s'.bills.Keys == s.bills.Keys + {s.nextBill} && s'.nextBill == s.nextBill + 1
    && (forall b :: b in s.bills && b != s.nextBill ==> s'.bills[b] == s.bills[b])
    && Stores(s'.bills[s.nextBill], quantity, rate, deductions, percent) && s'.bills[s.nextBill].status == Draft
    && s'.approvals == s.approvals + [Approval("bill", s.nextBill, Pending, user, None)]
  }

  lemma CreateHolds(s: Office, user: int, quantity: real, rate: real, deductions: real, percent: real)
    ensures var c := CreateBill(s, user, quantity, rate, deductions, percent);
            && (c.Some? <==> Sensible(quantity, rate, deductions, percent) && Covers(quantity, rate, deductions))
            && (c.Some? ==> Creates(s, c.value, user, quantity, rate, deductions, percent))
  {
    PricedStores(quantity, rate, deductions, percent, Draft);
  }

  ghost predicate SensiblePatch(p: Patch) {
    && (p.quantity.Some? ==> p.quantity.value > 0.0) && (p.rate.Some? ==> p.rate.value > 0.0)
    && (p.deductions.Some? ==> p.deductions.value >= 0.0) && (p.gstPercent.Some? ==> p.gstPercent.value >= 0.0)
  }

  /** The factors of an update: the fields given, the others as they are stored. */
  ghost predicate Merged(b: Bill, p: Patch, quantity: real, rate: real, deductions: real, percent: real, st: Status) {
    && quantity == Given(p.quantity, b.quantity) && rate == Given(p.rate, b.rate)
    && deductions == Given(p.deductions, b.deductions as real) && percent == Given(p.gstPercent, b.gstPercent)
    && st == Given(p.status, b.status)
  }

  /** All amounts follow the merged factors. */
  ghost predicate IsPatched(b: Bill, p: Patch, b': Bill) {
    exists q, r, d, g, st :: Merged(b, p, q, r, d, g, st) && Stores(b', q, r, d, g) && b'.status == st
  }

  ghost predicate CanPatch(b: Bill, p: Patch) {
    exists q, r, d, g, st :: Merged(b, p, q, r, d, g, st) && Covers(q, r, d)
  }

  lemma PatchIff(p: Patch)
    ensures PatchOk(p) <==> SensiblePatch(p)
  {
  }

  lemma MergedFactors(b: Bill, p: Patch, q: real, r: real, d: real, g: real, st: Status)
    requires Merged(b, p, q, r, d, g, st)
    ensures Patched(b, p) == Priced(q, r, d, g, st)
  {
  }

  lemma PatchedHolds(b: Bill, p: Patch)
    ensures Patched(b, p).Some? <==> CanPatch(b, p)
    ensures Patched(b, p).Some? ==> IsPatched(b, p, Patched(b, p).value)
  {
    var q, r, d := Given(p.quantity, b.quantity), Given(p.rate, b.rate), Given(p.deductions, b.deductions as real);
    var g, st := Given(p.gstPercent, b.gstPercent), Given(p.status, b.status);
    MergedFactors(b, p, q, r, d, g, st);
    PricedStores(q, r, d, g, st);
    assert Merged(b, p, q, r, d, g, st);
  }

  /** The journal of a bill: total against gross, and the tax on the stored net if there is any. */
  ghost predicate IsPosting(j: Journal, id: int, b: Bill) {
    var tax := b.net as real * b.gstPercent / 100.0;
    && j.bill == id && j.receivable == b.total && j.revenue == b.gross
    && if tax > 0.0 then KeptAs(tax, j.gst) else j.gst == 0
  }

  lemma PostingHolds(id: int, b: Bill)
    ensures IsPosting(Posting(id, b), id, b)
  {
    StoredIsNearest(GstCents(b), Stored(GstCents(b)));
  }

  // ---------------------------------------------------------------- approvals

  /** The texts agree but for the case of letters. */
  ghost predicate SameText(s: string, t: string) {
    |s| == |t| && forall i :: 0 <= i < |s| ==> SameLetter(s[i], t[i])
  }

  ghost predicate KnownKind(kind: string) {
    || SameText(kind, "boq") || SameText(kind, "measurement") || SameText(kind, "purchase_order")
    || SameText(kind, "document") || SameText(kind, "drawing") || SameText(kind, "bill")
    || SameText(kind, "journal_entry")
  }

  lemma KindIff(kind: string)
    ensures Lower(kind) in KINDS <==> KnownKind(kind)
    ensures Lower(kind) == "bill" <==> SameText(kind, "bill")
  {
    KindIs(kind, "boq");
    KindIs(kind, "measurement");
    KindIs(kind, "purchase_order");
    KindIs(kind, "document");
    KindIs(kind, "drawing");
    KindIs(kind, "bill");
    KindIs(kind, "journal_entry");
  }

  lemma KindIs(kind: string, name: string)
    requires forall i :: 0 <= i < |name| ==> !('A' <= name[i] <= 'Z')
    ensures Lower(kind) == name <==> SameText(kind, name)
  {
    LowerMeans(kind, name);
    assert Lower(name) == name;
  }

  /** The entity exists: a bill in the table, of other kinds what the lookup says. */
  ghost predicate EntityStands(s: Office, kind: string, entity: int, found: bool) {
    KnownKind(kind) && if SameText(kind, "bill") then entity in s.bills else found
  }

  ghost predicate HasPendingRow(rows: seq<Approval>, kind: string, entity: int) {
    exists i :: 0 <= i < |rows| && SameText(rows[i].kind, kind) && rows[i].entity == entity
                && rows[i].verdict == Pending
  }

  lemma RequestIff(s: Office, user: int, kind: string, entity: int, found: bool)
    ensures CreateApproval(s, user, kind, entity, found).Some? <==>
              EntityStands(s, kind, entity, found) && !HasPendingRow(s.approvals, kind, entity)
  {
    KindIff(kind);
    forall i | 0 <= i < |s.approvals|
      ensures Lower(s.approvals[i].kind) == Lower(kind) <==> SameText(s.approvals[i].kind, kind)
    {
      LowerMeans(s.approvals[i].kind, kind);
    }
  }

  /** Another user's pending row of an entity that stands. */
  ghost predicate MayDecide(s: Office, user: int, a: nat, found: bool) {
    && a < |s.approvals| && s.approvals[a].requestedBy != user && s.approvals[a].verdict == Pending
    && EntityStands(s, s.approvals[a].kind, s.approvals[a].entity, found)
  }

  /** The row gets the verdict and its decider; a bill gets the status, and nothing else changes. */
  ghost predicate Decides(s: Office, s': Office, user: int, a: nat, verdict: Verdict, st: Status)
    requires a < |s.approvals|
  {
    var x := s.approvals[a];
    && s'.approvals == s.approvals[a := Approval(x.kind, x.entity, verdict, x.requestedBy, Some(user))]
    && s'.bills.Keys == s.bills.Keys
    && forall b :: b in s.bills ==>
         s'.bills[b] == if SameText(x.kind, "bill") && b == x.entity then s.bills[b].(status := st) else s.bills[b]
  }

  lemma ResolveHolds(s: Office, user: int, a: nat, verdict: Verdict, st: Status, found: bool)
    ensures Resolve(s, user, a, verdict, st, found).Some? <==> MayDecide(s, user, a, found)
    ensures MayDecide(s, user, a, found) ==>
              Decides(s, Resolve(s, user, a, verdict, st, found).value, user, a, verdict, st)
  {
    if a < |s.approvals| {
      KindIff(s.approvals[a].kind);
    }
  }

  // ---------------------------------------------------------------- payments

  /** What is recorded on a link grows by the payments on that link only. */
  lemma {:induction false} PaidOnGrows(payments: seq<Payment>, p: Payment, link: string)
    ensures PaidOn([], link) == 0
    ensures PaidOn(payments + [p], link) == if p.linkedTo == link then PaidOn(payments, link) + p.amount
                                            else PaidOn(payments, link)
  {
    if payments == [] {
      assert [] + [p] == [p];
    } else {
      assert (payments + [p])[1..] == payments[1..] + [p];
      PaidOnGrows(payments[1..], p, link);
    }
  }

  /** An approved bill, and an amount that after quantizing is at most what is left to pay. */
  ghost predicate MayPay(s: Office, id: int, cents: real) {
    && id in s.bills && (s.bills[id].status == Approved || s.bills[id].status == Partial || s.bills[id].status == Paid)
    && cents > 0.0 && exists q :: QuantizedAs(cents, q) && q <= s.bills[id].total - PaidOn(s.payments, Link(id))
  }

  /** Payment and voucher of the amount as stored; the bill is Paid when the exact amount is all that was left. */
  ghost predicate Pays(s: Office, s': Office, id: int, cents: real)
    requires id in s.bills
  {
    && (exists amount :: KeptAs(cents, amount) && s'.payments == s.payments + [Payment("ra:" + IntText(id), amount)]
                         && s'.vouchers == s.vouchers + [Voucher(amount, amount)])
    && s'.bills == s.bills[id := s.bills[id].(
         status := if cents == (s.bills[id].total - PaidOn(s.payments, Link(id))) as real then Paid else Partial)]
  }

  lemma PayHolds(s: Office, id: int, cents: real)
    ensures PayContractor(s, id, cents).Some? <==> MayPay(s, id, cents)
    ensures MayPay(s, id, cents) ==> Pays(s, PayContractor(s, id, cents).value, id, cents)
  {
    QuantizedIsNearest(cents, Quantized(cents));
    forall q | QuantizedAs(cents, q)
      ensures q == Quantized(cents)
    {
      QuantizedIsNearest(cents, q);
    }
    StoredIsNearest(cents, Stored(cents));
  }
}
