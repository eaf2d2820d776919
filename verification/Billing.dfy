/**
 * RA bills, their approvals and contractor payments. Four source modules write
 * one bill: app/api/billing.py, app/api/approval.py, `pay_contractor` of
 * app/api/accountant.py and `convert_to_bill` of app/api/quotation.py. The state
 * below is their common tables; every operation is one handler, and a refused
 * call changes nothing.
 */
module Billing {
  import opened Prelude
  import opened Money
  import opened Text

  // ---------------------------------------------------------------- rows

  datatype Status = Draft | Submitted | Approved | Partial | Paid | Rejected | Other(text: string)

  /** A stored row: amounts are cents, quantity has three decimals, rate and GST percent two. */
  datatype Bill = Bill(quantity: real, rate: real, deductions: int, gstPercent: real,
                       gross: int, net: int, total: int, status: Status)

  datatype Verdict = Pending | Granted | Refused

  datatype Approval = Approval(kind: string, entity: int, verdict: Verdict, requestedBy: int, approvedBy: Option<int>)

  /** The J-RAB journal of an approved bill: receivable debit, revenue and GST credits. */
  datatype Journal = Journal(bill: int, receivable: int, revenue: int, gst: int)

  datatype Payment = Payment(linkedTo: string, amount: int)

  /** The journal of a contractor payment. */
  datatype Voucher = Voucher(payableDebit: int, bankCredit: int)

  /** `quoted` are the bills made from quotations. */
  datatype Office = Office(bills: map<int, Bill>, nextBill: int, quoted: set<int>, approvals: seq<Approval>,
                           journals: seq<Journal>, payments: seq<Payment>, vouchers: seq<Voucher>)

  const EMPTY := Office(map[], 1, {}, [], [], [], [])

  predicate Open(s: Status) {
    s.Draft? || s.Submitted?
  }

  /** The approval concerns this bill, whatever the case of its entity type. */
  predicate Concerns(a: Approval, bill: int) {
    Lower(a.kind) == "bill" && a.entity == bill
  }

  predicate SameEntity(a: Approval, b: Approval) {
    Lower(a.kind) == Lower(b.kind) && a.entity == b.entity
  }

  // ---------------------------------------------------------------- billing.py

  /** Exact gross, net and total in cents. */
  function Gross(quantity: real, rate: real): real {
    quantity * rate * 100.0
  }

  function Net(quantity: real, rate: real, deductions: real): real {
    Gross(quantity, rate) - deductions
  }

  function WithGst(net: real, gstPercent: real): real {
    net + net * gstPercent / 100.0
  }

  predicate PayloadOk(quantity: real, rate: real, deductions: real, gstPercent: real) {
    quantity > 0.0 && rate > 0.0 && deductions >= 0.0 && gstPercent >= 0.0
  }

  /** Amounts are computed exactly from the request, deductions in cents, and then stored with it. */
  function Priced(quantity: real, rate: real, deductions: real, gstPercent: real, status: Status): Option<Bill> {
    if deductions > Gross(quantity, rate) then None
    else
      var net := Net(quantity, rate, deductions);
      Some(Bill(Thousandths(quantity), Hundredths(rate), Stored(deductions), Hundredths(gstPercent),
                Stored(Gross(quantity, rate)), Stored(net), Stored(WithGst(net, gstPercent)), status))
  }

  function CreateBill(s: Office, user: int, quantity: real, rate: real, deductions: real, gstPercent: real)
    : Option<Office>
  {
    if !PayloadOk(quantity, rate, deductions, gstPercent) then None
    else
      match Priced(quantity, rate, deductions, gstPercent, Draft)
      case None => None
      case Some(bill) =>
        Some(s.(bills := s.bills[s.nextBill := bill], nextBill := s.nextBill + 1,
                approvals := s.approvals + [Approval("bill", s.nextBill, Pending, user, None)]))
  }

  /** The fields an update may carry; the schema admits any status. */
  datatype Patch = Patch(quantity: Option<real>, rate: Option<real>, deductions: Option<real>,
                         gstPercent: Option<real>, status: Option<Status>)

  predicate PatchOk(p: Patch) {
    PayloadOk(Or(p.quantity, 1.0), Or(p.rate, 1.0), Or(p.deductions, 0.0), Or(p.gstPercent, 0.0))
  }

  function Patched(b: Bill, p: Patch): Option<Bill> {
    Priced(Or(p.quantity, b.quantity), Or(p.rate, b.rate), Or(p.deductions, b.deductions as real),
           Or(p.gstPercent, b.gstPercent), Or(p.status, b.status))
  }

  function UpdateBill(s: Office, id: int, p: Patch): Option<Office> {
    if id !in s.bills || !PatchOk(p) then None
    else
      match Patched(s.bills[id], p)
      case None => None
      case Some(b) => Some(s.(bills := s.bills[id := b]))
  }

  function DeleteBill(s: Office, id: int): Option<Office> {
    if id !in s.bills then None else Some(s.(bills := s.bills - {id}))
  }

  function SetStatus(s: Office, id: int, st: Status): Office
    requires id in s.bills
  {
    s.(bills := s.bills[id := s.bills[id].(status := st)])
  }

  function SubmitBill(s: Office, id: int): Option<Office> {
    if id !in s.bills || !s.bills[id].status.Draft? then None else Some(SetStatus(s, id, Submitted))
  }

  /** GST on a stored net amount. */
  function GstOn(net: int, gstPercent: real): real {
    net as real * gstPercent / 100.0
  }

  function GstCents(b: Bill): real {
    GstOn(b.net, b.gstPercent)
  }

  function Posting(id: int, b: Bill): Journal {
    Journal(id, b.total, b.gross, if GstCents(b) > 0.0 then Stored(GstCents(b)) else 0)
  }

  /** `pick` is the approval row an unordered query returned: any matching one, none if none matches. */
  predicate Returned(approvals: seq<Approval>, id: int, pick: Option<nat>) {
    if pick.Some? then
      pick.value < |approvals| && approvals[pick.value].kind == "bill" && approvals[pick.value].entity == id
    else
      forall i :: 0 <= i < |approvals| ==> !(approvals[i].kind == "bill" && approvals[i].entity == id)
  }

  function ApproveBill(s: Office, id: int, pick: Option<nat>): Option<Office> {
    if id !in s.bills || !s.bills[id].status.Submitted? || !Returned(s.approvals, id, pick) then None
    else
      Some(SetStatus(s, id, Approved).(
             approvals := if pick.Some? then s.approvals[pick.value := s.approvals[pick.value].(verdict := Granted)]
                          else s.approvals,
             journals := s.journals + [Posting(id, s.bills[id])]))
  }

  function PayBill(s: Office, id: int): Option<Office> {
    if id !in s.bills || !s.bills[id].status.Approved? then None else Some(SetStatus(s, id, Paid))
  }

  // ---------------------------------------------------------------- quotation.py

  /** The schema of quotations admits no negative percentage. */
  type Percentage = x: real | 0.0 <= x

  /** The grand total becomes gross, net and total alike, whatever the percentage. */
  function Converted(total: int, gstPercent: Percentage): Bill {
    Bill(1.0, total as real / 100.0, 0, Hundredths(gstPercent), total, total, total, Draft)
  }

  /** No approval is requested. `usable` says whether the checks of quotation, project and contractor pass. */
  function ConvertToBill(s: Office, total: int, gstPercent: Percentage, usable: bool): Option<Office> {
    if !usable then None
    else Some(s.(bills := s.bills[s.nextBill := Converted(total, gstPercent)], nextBill := s.nextBill + 1,
                 quoted := s.quoted + {s.nextBill}))
  }

  // ---------------------------------------------------------------- approval.py

  const KINDS := {"boq", "measurement", "purchase_order", "document", "drawing", "bill", "journal_entry"}

  /** For entities outside this model `found` says whether the lookup and status checks pass. */
  predicate EntityOk(s: Office, kind: string, entity: int, found: bool) {
    Lower(kind) in KINDS && (if Lower(kind) == "bill" then entity in s.bills else found)
  }

  predicate PendingFor(approvals: seq<Approval>, kind: string, entity: int) {
    exists i :: 0 <= i < |approvals| && Lower(approvals[i].kind) == Lower(kind)
                && approvals[i].entity == entity && approvals[i].verdict.Pending?
  }

  function CreateApproval(s: Office, user: int, kind: string, entity: int, found: bool): Option<Office> {
    if !EntityOk(s, kind, entity, found) || PendingFor(s.approvals, kind, entity) then None
    else Some(s.(approvals := s.approvals + [Approval(kind, entity, Pending, user, None)]))
  }

  /** approve and reject up to the remarks check: only another user, only a pending request. */
  function Resolve(s: Office, user: int, a: nat, verdict: Verdict, st: Status, found: bool): Option<Office> {
    if a >= |s.approvals| || s.approvals[a].requestedBy == user || !s.approvals[a].verdict.Pending?
       || !EntityOk(s, s.approvals[a].kind, s.approvals[a].entity, found) then None
    else
      var x := s.approvals[a];
      var s' := if Lower(x.kind) == "bill" then SetStatus(s, x.entity, st) else s;
      Some(s'.(approvals := s.approvals[a := x.(verdict := verdict, approvedBy := Some(user))]))
  }

  predicate Blank(remarks: string) {
    forall i :: 0 <= i < |remarks| ==> remarks[i] in " \t\n\r"
  }

  function Approve(s: Office, user: int, a: nat, found: bool): Option<Office> {
    Resolve(s, user, a, Granted, Approved, found)
  }

  function Reject(s: Office, user: int, a: nat, remarks: string, found: bool): Option<Office> {
    if Blank(remarks) then None else Resolve(s, user, a, Refused, Rejected, found)
  }

  // ---------------------------------------------------------------- pay_contractor

  function Link(id: int): string {
    "ra:" + IntText(id)
  }

  function PaidOn(payments: seq<Payment>, link: string): int {
    if payments == [] then 0
    else (if payments[0].linkedTo == link then payments[0].amount else 0) + PaidOn(payments[1..], link)
  }

  /** The request is compared after quantizing, recorded as the column stores it, and judged paid exactly. */
  function PayContractor(s: Office, id: int, cents: real): Option<Office> {
    if id !in s.bills || !(s.bills[id].status in {Approved, Partial, Paid}) then None
    else
      var pending := s.bills[id].total - PaidOn(s.payments, Link(id));
      if cents <= 0.0 || Quantized(cents) > pending then None
      else
        var st := if pending as real - cents == 0.0 then Paid else Partial;
        Some(SetStatus(s, id, st).(
               payments := s.payments + [Payment(Link(id), Stored(cents))],
               vouchers := s.vouchers + [Voucher(Stored(cents), Stored(cents))]))
  }

  // ---------------------------------------------------------------- the machine

  datatype Event =
    | DoCreate(user: int, quantity: real, rate: real, deductions: real, gstPercent: real)
    | DoConvert(total: int, percent: Percentage, usable: bool)
    | DoUpdate(id: int, patch: Patch)
    | DoDelete(id: int)
    | DoSubmit(id: int)
    | DoApproveBill(id: int, pick: Option<nat>)
    | DoPayBill(id: int)
    | DoRequest(user: int, kind: string, entity: int, found: bool)
    | DoApprove(user: int, approval: nat, found: bool)
    | DoReject(user: int, approval: nat, remarks: string, found: bool)
    | DoPayContractor(id: int, cents: real)

  function Call(s: Office, e: Event): Option<Office> {
    match e
    case DoCreate(u, q, r, d, g) => CreateBill(s, u, q, r, d, g)
    case DoConvert(t, g, u) => ConvertToBill(s, t, g, u)
    case DoUpdate(id, p) => UpdateBill(s, id, p)
    case DoDelete(id) => DeleteBill(s, id)
    case DoSubmit(id) => SubmitBill(s, id)
    case DoApproveBill(id, pick) => ApproveBill(s, id, pick)
    case DoPayBill(id) => PayBill(s, id)
    case DoRequest(u, k, n, f) => CreateApproval(s, u, k, n, f)
    case DoApprove(u, a, f) => Approve(s, u, a, f)
    case DoReject(u, a, m, f) => Reject(s, u, a, m, f)
    case DoPayContractor(id, c) => PayContractor(s, id, c)
  }

  function Step(s: Office, e: Event): Office {
    Or(Call(s, e), s)
  }

  function Run(s: Office, es: seq<Event>): Office
    decreases es
  {
    if es == [] then s else Run(Step(s, es[0]), es[1..])
  }

  // ---------------------------------------------------------------- the joint invariant

  ghost predicate IdsFresh(s: Office) {
    && (forall b :: b in s.bills ==> b < s.nextBill)
    && (forall b :: b in s.quoted ==> b < s.nextBill)
    && (forall i, b: int :: 0 <= i < |s.approvals| && Concerns(s.approvals[i], b) ==> b < s.nextBill)
    && (forall i :: 0 <= i < |s.journals| ==> s.journals[i].bill < s.nextBill)
  }

  ghost predicate OnePendingEach(approvals: seq<Approval>) {
    forall i, j :: 0 <= i < j < |approvals| && approvals[i].verdict.Pending? && approvals[j].verdict.Pending? ==>
      !SameEntity(approvals[i], approvals[j])
  }

  /** None of the bill's approvals has been approved or rejected. */
  ghost predicate Undecided(approvals: seq<Approval>, bill: int) {
    forall i :: 0 <= i < |approvals| && Concerns(approvals[i], bill) ==> approvals[i].verdict.Pending?
  }

  ghost predicate Requested(approvals: seq<Approval>, bill: int) {
    exists i :: 0 <= i < |approvals| && Concerns(approvals[i], bill) && approvals[i].kind == "bill"
  }

  ghost predicate Unposted(journals: seq<Journal>, bill: int) {
    forall i :: 0 <= i < |journals| ==> journals[i].bill != bill
  }

  /** Neither decided nor posted. */
  ghost predicate Untouched(s: Office, bill: int) {
    Undecided(s.approvals, bill) && Unposted(s.journals, bill)
  }

  ghost predicate CreatedAreRequested(s: Office) {
    forall b :: b in s.bills && b !in s.quoted ==> Requested(s.approvals, b)
  }

  ghost predicate OpenAreUntouched(s: Office) {
    forall b :: b in s.bills && Open(s.bills[b].status) ==> Untouched(s, b)
  }

  ghost predicate PostedAreDecided(s: Office) {
    forall i :: 0 <= i < |s.journals| && s.journals[i].bill !in s.quoted ==>
      !Undecided(s.approvals, s.journals[i].bill)
  }

  ghost predicate OneJournalEach(journals: seq<Journal>) {
    forall i, j :: 0 <= i < j < |journals| ==> journals[i].bill != journals[j].bill
  }

  ghost predicate DutiesSegregated(approvals: seq<Approval>) {
    forall i :: 0 <= i < |approvals| && approvals[i].approvedBy.Some? ==>
      approvals[i].approvedBy.value != approvals[i].requestedBy
  }

  ghost predicate Inv(s: Office) {
    && IdsFresh(s) && CreatedAreRequested(s) && OpenAreUntouched(s) && PostedAreDecided(s)
    && OnePendingEach(s.approvals) && OneJournalEach(s.journals) && DutiesSegregated(s.approvals)
  }

  /**
   * An update puts a bill back to Draft or Submitted although it is posted already or one
   * of its approvals was decided.
   */
  ghost predicate Reopens(s: Office, e: Event) {
    && e.DoUpdate? && Call(s, e).Some?
    && e.patch.status.Some? && Open(e.patch.status.value)
    && !Untouched(s, e.id)
  }
}
