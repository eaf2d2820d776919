/** The handlers of billing, approvals and payables as code that updates the tables in place. */
module BillingHandlers {
  import opened Prelude
  import opened Money
  import opened Billing
  import opened BillingRows
  import opened Text

  class BillingOffice {
    var bills: map<int, Bill>
    var nextBill: int
    var quoted: set<int>
    var approvals: seq<Approval>
    var journals: seq<Journal>
    var payments: seq<Payment>
    var vouchers: seq<Voucher>

    /** The tables as one value. */
    function State(): Office
      reads this
    {
      Office(bills, nextBill, quoted, approvals, journals, payments, vouchers)
    }

    constructor ()
      ensures State() == EMPTY
    {
      bills, nextBill, quoted := map[], 1, {};
      approvals, journals, payments, vouchers := [], [], [], [];
    }

    method CreateRaBill(user: int, quantity: real, rate: real, deductions: real, gstPercent: real) returns (ok: bool)
      modifies this`bills, this`nextBill, this`approvals
      ensures ok <==> Sensible(quantity, rate, deductions, gstPercent) && Covers(quantity, rate, deductions)
      ensures if ok then Creates(old(State()), State(), user, quantity, rate, deductions, gstPercent)
              else State() == old(State())
      ensures State() == Step(old(State()), DoCreate(user, quantity, rate, deductions, gstPercent))
    {
      CreateHolds(State(), user, quantity, rate, deductions, gstPercent);
      if !PayloadOk(quantity, rate, deductions, gstPercent) {
        return false;
      }
      var priced := Price(quantity, rate, deductions, gstPercent, Draft);
      if priced.None? {
        return false;
      }
      var id := nextBill;
      bills := bills[id := priced.value];
      nextBill := nextBill + 1;
      approvals := approvals + [Approval("bill", id, Pending, user, None)];
      ok := true;
    }

    /** The amounts, computed exactly and stored with what they were computed from. */
    method Price(quantity: real, rate: real, deductions: real, gstPercent: real, status: Status)
      returns (r: Option<Bill>)
      ensures r == Priced(quantity, rate, deductions, gstPercent, status)
      ensures r.Some? <==> Covers(quantity, rate, deductions)
      ensures r.Some? ==> Stores(r.value, quantity, rate, deductions, gstPercent) && r.value.status == status
    {
      PricedStores(quantity, rate, deductions, gstPercent, status);
      var gross := quantity * rate * 100.0;
      assert gross == Gross(quantity, rate);
      if deductions > gross {
        return None;
      }
      var net := gross - deductions;
      var total := net + net * gstPercent / 100.0;
      assert total == WithGst(net, gstPercent);
      r := Some(Bill(Thousandths(quantity), Hundredths(rate), Stored(deductions), Hundredths(gstPercent),
                     Stored(gross), Stored(net), Stored(total), status));
    }

    /** convert_to_bill: a Draft without an approval, whose total adds no GST to its net. */
    method ConvertQuotation(total: int, percent: Percentage, usable: bool) returns (ok: bool)
      modifies this`bills, this`nextBill, this`quoted
      ensures ok == usable
      ensures ok ==> && nextBill == old(nextBill) + 1 && quoted == old(quoted) + {old(nextBill)}
                     && bills == old(bills)[old(nextBill) := Bill(1.0, total as real / 100.0, 0, Hundredths(percent),
                                                                  total, total, total, Draft)]
      ensures State() == Step(old(State()), DoConvert(total, percent, usable))
    {
      if !usable {
        return false;
      }
      var grandTotal := total as real / 100.0;
      bills := bills[nextBill := Bill(1.0, grandTotal, 0, Hundredths(percent), total, total, total, Draft)];
      quoted := quoted + {nextBill};
      nextBill := nextBill + 1;
      ok := true;
    }

    /** Patched fields enter the amounts as given, the others as they are stored. */
    method UpdateRaBill(id: int, patch: Patch) returns (ok: bool)
      modifies this`bills
      ensures ok <==> id in old(bills) && SensiblePatch(patch) && CanPatch(old(bills)[id], patch)
      ensures if ok then id in bills && IsPatched(old(bills)[id], patch, bills[id])
                         && bills == old(bills)[id := bills[id]]
              else bills == old(bills)
      ensures State() == Step(old(State()), DoUpdate(id, patch))
    {
      PatchIff(patch);
      if id !in bills || !PatchOk(patch) {
        return false;
      }
      PatchedHolds(bills[id], patch);
      var obj := bills[id];
      var quantity, rate, deductions := obj.quantity, obj.rate, obj.deductions as real;
      var percent, status := obj.gstPercent, obj.status;
      if patch.quantity.Some? { quantity := patch.quantity.value; }
      if patch.rate.Some? { rate := patch.rate.value; }
      if patch.deductions.Some? { deductions := patch.deductions.value; }
      if patch.gstPercent.Some? { percent := patch.gstPercent.value; }
      if patch.status.Some? { status := patch.status.value; }
      var priced := Price(quantity, rate, deductions, percent, status);
      if priced.None? {
        return false;
      }
      bills := bills[id := priced.value];
      ok := true;
    }

    method DeleteRaBill(id: int) returns (ok: bool)
      modifies this`bills
      ensures ok == (id in old(bills))
      ensures bills == if ok then old(bills) - {id} else old(bills)
      ensures State() == Step(old(State()), DoDelete(id))
    {
      if id !in bills {
        return false;
      }
      bills := bills - {id};
      ok := true;
    }

    method SubmitRaBill(id: int) returns (ok: bool)
      modifies this`bills
      ensures ok == (id in old(bills) && old(bills)[id].status.Draft?)
      ensures bills == if ok then old(bills)[id := old(bills)[id].(status := Submitted)] else old(bills)
      ensures State() == Step(old(State()), DoSubmit(id))
    {
      if id !in bills || bills[id].status != Draft {
        return false;
      }
      bills := bills[id := bills[id].(status := Submitted)];
      ok := true;
    }

    method FindBillApproval(id: int) returns (pick: Option<nat>)
      ensures Returned(approvals, id, pick)
    {
      for i := 0 to |approvals|
        invariant forall k :: 0 <= k < i ==> !(approvals[k].kind == "bill" && approvals[k].entity == id)
      {
        if approvals[i].kind == "bill" && approvals[i].entity == id {
          return Some(i);
        }
      }
      pick := None;
    }

    method ApproveRaBill(id: int) returns (ok: bool, ghost pick: Option<nat>)
      modifies this`bills, this`approvals, this`journals
      ensures ok == (id in old(bills) && old(bills)[id].status == Submitted)
      ensures ok ==> Returned(old(approvals), id, pick)
      ensures ok ==> bills == old(bills)[id := old(bills)[id].(status := Approved)]
                     && |journals| == |old(journals)| + 1 && journals[..|old(journals)|] == old(journals)
                     && IsPosting(journals[|old(journals)|], id, old(bills)[id])
      ensures ok && pick.Some? ==>
                && pick.value < |old(approvals)| && old(approvals)[pick.value].kind == "bill"
                && old(approvals)[pick.value].entity == id
                && approvals == old(approvals)[pick.value := old(approvals)[pick.value].(verdict := Granted)]
      ensures ok && pick.None? ==>
                approvals == old(approvals) && forall x :: x in approvals ==> !(x.kind == "bill" && x.entity == id)
      ensures State() == if ok then Step(old(State()), DoApproveBill(id, pick)) else old(State())
    {
      pick := None;
      if id !in bills || bills[id].status != Submitted {
        return false, None;
      }
      var obj := bills[id];
      PostingHolds(id, obj);
      bills := bills[id := obj.(status := Approved)];
      var found := FindBillApproval(id);
      pick := found;
      if found.Some? {
        approvals := approvals[found.value := approvals[found.value].(verdict := Granted)];
      }
      var gst := obj.net as real * obj.gstPercent / 100.0;
      assert gst == GstCents(obj);
      var je := Journal(id, obj.total, obj.gross, 0);
      if gst > 0.0 {
        je := je.(gst := Stored(gst));
      }
      journals := journals + [je];
      ok := true;
    }

    method PayRaBill(id: int) returns (ok: bool)
      modifies this`bills
      ensures ok == (id in old(bills) && old(bills)[id].status.Approved?)
      ensures bills == if ok then old(bills)[id := old(bills)[id].(status := Paid)] else old(bills)
      ensures State() == Step(old(State()), DoPayBill(id))
    {
      if id !in bills || bills[id].status != Approved {
        return false;
      }
      bills := bills[id := bills[id].(status := Paid)];
      ok := true;
    }

    method HasPending(kind: string, entity: int) returns (found: bool)
      ensures found == PendingFor(approvals, kind, entity)
    {
      for i := 0 to |approvals|
        invariant forall k :: 0 <= k < i ==>
          !(Lower(approvals[k].kind) == Lower(kind) && approvals[k].entity == entity && approvals[k].verdict == Pending)
      {
        if Lower(approvals[i].kind) == Lower(kind) && approvals[i].entity == entity && approvals[i].verdict == Pending {
          return true;
        }
      }
      found := false;
    }

    method RequestApproval(user: int, kind: string, entity: int, found: bool) returns (ok: bool)
      modifies this`approvals
      ensures ok <==> EntityStands(old(State()), kind, entity, found) && !HasPendingRow(old(approvals), kind, entity)
      ensures approvals == if ok then old(approvals) + [Approval(kind, entity, Pending, user, None)]
                           else old(approvals)
      ensures State() == Step(old(State()), DoRequest(user, kind, entity, found))
    {
      RequestIff(State(), user, kind, entity, found);
      if !EntityOk(State(), kind, entity, found) {
        return false;
      }
      var existing := HasPending(kind, entity);
      if existing {
        return false;
      }
      approvals := approvals + [Approval(kind, entity, Pending, user, None)];
      ok := true;
    }

    method ResolveApproval(user: int, a: nat, verdict: Verdict, st: Status, found: bool) returns (ok: bool)
      modifies this`bills, this`approvals
      ensures ok == Resolve(old(State()), user, a, verdict, st, found).Some?
      ensures State() == Or(Resolve(old(State()), user, a, verdict, st, found), old(State()))
    {
      if a >= |approvals| {
        return false;
      }
      var obj := approvals[a];
      if user == obj.requestedBy || obj.verdict != Pending {
        return false;
      }
      if !EntityOk(State(), obj.kind, obj.entity, found) {
        return false;
      }
      if Lower(obj.kind) == "bill" {
        bills := bills[obj.entity := bills[obj.entity].(status := st)];
      }
      approvals := approvals[a := obj.(verdict := verdict, approvedBy := Some(user))];
      ok := true;
    }

    method ApproveRequest(user: int, a: nat, found: bool) returns (ok: bool)
      modifies this`bills, this`approvals
      ensures ok <==> MayDecide(old(State()), user, a, found)
      ensures if ok then Decides(old(State()), State(), user, a, Granted, Approved) else State() == old(State())
      ensures State() == Step(old(State()), DoApprove(user, a, found))
    {
      ResolveHolds(State(), user, a, Granted, Approved, found);
      ok := ResolveApproval(user, a, Granted, Approved, found);
    }

    method RejectRequest(user: int, a: nat, remarks: string, found: bool) returns (ok: bool)
      modifies this`bills, this`approvals
      ensures ok <==> (exists i :: 0 <= i < |remarks| && remarks[i] !in " \t\n\r")
                      && MayDecide(old(State()), user, a, found)
      ensures if ok then Decides(old(State()), State(), user, a, Refused, Rejected) else State() == old(State())
      ensures State() == Step(old(State()), DoReject(user, a, remarks, found))
    {
      if Blank(remarks) {
        return false;
      }
      ResolveHolds(State(), user, a, Refused, Rejected, found);
      ok := ResolveApproval(user, a, Refused, Rejected, found);
    }

    method PaidSoFar(link: string) returns (paid: int)
      ensures paid == PaidOn(payments, link)
    {
      paid := 0;
      for i := 0 to |payments|
        invariant paid + PaidOn(payments[i..], link) == PaidOn(payments, link)
      {
        assert payments[i..][0] == payments[i] && payments[i..][1..] == payments[i + 1..];
        if payments[i].linkedTo == link {
          paid := paid + payments[i].amount;
        }
      }
    }

    method PayContractorBill(id: int, cents: real) returns (ok: bool)
      modifies this`bills, this`payments, this`vouchers
      ensures ok <==> MayPay(old(State()), id, cents)
      ensures if ok then Pays(old(State()), State(), id, cents) else State() == old(State())
      ensures State() == Step(old(State()), DoPayContractor(id, cents))
    {
      PayHolds(State(), id, cents);
      if id !in bills || !(bills[id].status in {Approved, Partial, Paid}) {
        return false;
      }
      var ra := bills[id];
      var paid := PaidSoFar(Link(id));
      var pending := ra.total - paid;
      if cents <= 0.0 || Quantized(cents) > pending {
        return false;
      }
      payments := payments + [Payment(Link(id), Stored(cents))];
      vouchers := vouchers + [Voucher(Stored(cents), Stored(cents))];
      var newPending := ra.total as real - (paid as real + cents);
      bills := bills[id := ra.(status := if newPending == 0.0 then Paid else Partial)];
      ok := true;
    }
  }
}
