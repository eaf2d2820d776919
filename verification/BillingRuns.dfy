/** What the interleaved billing, approval and payment handlers keep over every run. */
module BillingRuns {
  import opened Prelude
  import opened Money
  import opened Billing
  import opened Text

  // ---------------------------------------------------------------- one step

  lemma LowerBill()
    ensures Lower("bill") == "bill"
  {
  }

  /** Approval rows are only appended and resolved, never retargeted. */
  ghost predicate Extends(old': seq<Approval>, new': seq<Approval>) {
    && |old'| <= |new'|
    && forall i :: 0 <= i < |old'| ==>
         && new'[i].kind == old'[i].kind && new'[i].entity == old'[i].entity
         && (!old'[i].verdict.Pending? ==> new'[i] == old'[i])
  }

  lemma KeepsRequested(old': seq<Approval>, new': seq<Approval>, b: int)
    requires Extends(old', new') && Requested(old', b)
    ensures Requested(new', b)
  {
  }

  lemma KeepsDecided(old': seq<Approval>, new': seq<Approval>, b: int)
    requires Extends(old', new') && !Undecided(old', b)
    ensures !Undecided(new', b)
  {
  }

  lemma AllRequestedStay(s: Office, s': Office)
    requires CreatedAreRequested(s) && Extends(s.approvals, s'.approvals)
    requires forall b :: b in s'.bills && b !in s'.quoted ==> b in s.bills && b !in s.quoted
    ensures CreatedAreRequested(s')
  {
    forall b | b in s'.bills && b !in s'.quoted
      ensures Requested(s'.approvals, b)
    {
      KeepsRequested(s.approvals, s'.approvals, b);
    }
  }

  lemma PostedStayDecided(s: Office, s': Office)
    requires PostedAreDecided(s) && Extends(s.approvals, s'.approvals)
    requires s'.journals == s.journals && s.quoted <= s'.quoted
    ensures PostedAreDecided(s')
  {
    forall i | 0 <= i < |s'.journals| && s'.journals[i].bill !in s'.quoted
      ensures !Undecided(s'.approvals, s'.journals[i].bill)
    {
      KeepsDecided(s.approvals, s'.approvals, s'.journals[i].bill);
    }
  }

  /** A step on the bills alone that opens untouched bills only. */
  lemma BillsStepKeepsInv(s: Office, s': Office)
    requires Inv(s) && s'.approvals == s.approvals && s'.journals == s.journals
    requires s.nextBill <= s'.nextBill && s.quoted <= s'.quoted
    requires forall b :: b in s'.bills || b in s'.quoted ==> b < s'.nextBill
    requires forall b :: b in s'.bills && b !in s'.quoted ==> b in s.bills && b !in s.quoted
    requires forall b :: b in s'.bills && Open(s'.bills[b].status) ==> Untouched(s, b)
    ensures Inv(s')
  {
    AllRequestedStay(s, s');
    PostedStayDecided(s, s');
  }

  /** Submitting, paying, deleting and paying the contractor never open a bill. */
  lemma StatusStepKeepsInv(s: Office, e: Event)
    requires Inv(s) && (e.DoSubmit? || e.DoPayBill? || e.DoDelete? || e.DoPayContractor?)
    ensures Inv(Step(s, e))
  {
    var s' := Step(s, e);
    forall b | b in s'.bills && Open(s'.bills[b].status)
      ensures Untouched(s, b)
    {
      assert b in s.bills && Open(s.bills[b].status);
    }
    BillsStepKeepsInv(s, s');
  }

  /** A number not yet given to a bill has no approvals and no journals. */
  lemma NextIsUntouched(s: Office)
    requires IdsFresh(s)
    ensures Untouched(s, s.nextBill) && s.nextBill !in s.bills && s.nextBill !in s.quoted
  {
  }

  lemma ConvertKeepsInv(s: Office, e: Event)
    requires Inv(s) && e.DoConvert?
    ensures Inv(Step(s, e))
  {
    if e.usable {
      NextIsUntouched(s);
      BillsStepKeepsInv(s, Step(s, e));
    }
  }

  /** An update keeps the invariant exactly when it does not reopen a bill that was decided or posted. */
  lemma UpdateKeepsInvIff(s: Office, e: Event)
    requires Inv(s) && e.DoUpdate?
    ensures Inv(Step(s, e)) <==> !Reopens(s, e)
  {
    var s' := Step(s, e);
    if Reopens(s, e) {
      assert Open(s'.bills[e.id].status) && !Untouched(s', e.id);
    } else if Call(s, e).Some? {
      assert Untouched(s, e.id) || !Open(s'.bills[e.id].status);
      BillsStepKeepsInv(s, s');
    }
  }

  /** One more pending request, for an entity that has none pending. */
  lemma OneMoreRequest(rows: seq<Approval>, a: Approval)
    requires a.verdict.Pending? && a.approvedBy.None? && !PendingFor(rows, a.kind, a.entity)
    ensures Extends(rows, rows + [a])
    ensures OnePendingEach(rows) ==> OnePendingEach(rows + [a])
    ensures DutiesSegregated(rows) ==> DutiesSegregated(rows + [a])
    ensures forall b :: Undecided(rows, b) ==> Undecided(rows + [a], b)
  {
  }

  /** Appending such a request, for a bill that exists, keeps the invariant. */
  lemma RequestStepKeepsInv(s: Office, a: Approval)
    requires Inv(s) && a.verdict.Pending? && a.approvedBy.None? && !PendingFor(s.approvals, a.kind, a.entity)
    requires Lower(a.kind) == "bill" ==> a.entity < s.nextBill
    ensures Inv(s.(approvals := s.approvals + [a]))
  {
    var s' := s.(approvals := s.approvals + [a]);
    OneMoreRequest(s.approvals, a);
    AllRequestedStay(s, s');
    PostedStayDecided(s, s');
    assert IdsFresh(s');
    assert OpenAreUntouched(s');
  }

  lemma RequestKeepsInv(s: Office, e: Event)
    requires Inv(s) && e.DoRequest?
    ensures Inv(Step(s, e)) && Extends(s.approvals, Step(s, e).approvals)
  {
    if Call(s, e).Some? {
      RequestStepKeepsInv(s, Approval(e.kind, e.entity, Pending, e.user, None));
    }
  }

  /** The bill enters the tables together with its request: first the number, then the request, then the row. */
  lemma CreateKeepsInv(s: Office, e: Event)
    requires Inv(s) && e.DoCreate?
    ensures Inv(Step(s, e))
  {
    if Call(s, e).Some? {
      LowerBill();
      NextIsUntouched(s);
      assert forall i :: 0 <= i < |s.approvals| ==> !Concerns(s.approvals[i], s.nextBill);
      var a := Approval("bill", s.nextBill, Pending, e.user, None);
      var numbered := s.(nextBill := s.nextBill + 1);
      BillsStepKeepsInv(s, numbered);
      RequestStepKeepsInv(numbered, a);
      NewRowKeepsInv(numbered.(approvals := s.approvals + [a]), Step(s, e), s.nextBill, |s.approvals|);
    }
  }

  lemma NewRowKeepsInv(s: Office, s': Office, id: int, i: nat)
    requires Inv(s) && id < s.nextBill && id !in s.quoted && Untouched(s, id)
    requires i < |s.approvals| && Concerns(s.approvals[i], id) && s.approvals[i].kind == "bill"
    requires id in s'.bills && s' == s.(bills := s.bills[id := s'.bills[id]])
    ensures Inv(s')
  {
    assert Requested(s'.approvals, id);
    assert CreatedAreRequested(s');
    assert OpenAreUntouched(s');
  }

  /** Deciding one pending row leaves at most one pending row for each entity and touches no other bill. */
  lemma DecidedRow(rows: seq<Approval>, p: nat, x: Approval)
    requires p < |rows| && rows[p].verdict.Pending? && !x.verdict.Pending?
    requires x.kind == rows[p].kind && x.entity == rows[p].entity
    ensures Extends(rows, rows[p := x])
    ensures OnePendingEach(rows) ==> OnePendingEach(rows[p := x])
    ensures forall b :: !Concerns(x, b) && Undecided(rows, b) ==> Undecided(rows[p := x], b)
    ensures forall b :: Concerns(x, b) ==> !Undecided(rows[p := x], b)
  {
  }

  /** Deciding a row keeps the invariant when the bills it concerns are no longer open. */
  lemma DecisionKeepsInv(s: Office, s': Office, p: nat, x: Approval)
    requires Inv(s) && p < |s.approvals| && s.approvals[p].verdict.Pending? && !x.verdict.Pending?
    requires x.kind == s.approvals[p].kind && x.entity == s.approvals[p].entity
    requires x.approvedBy.Some? ==> x.approvedBy.value != x.requestedBy
    requires s'.approvals == s.approvals[p := x] && s'.journals == s.journals && s'.nextBill == s.nextBill
    requires s'.bills.Keys == s.bills.Keys && s'.quoted == s.quoted
    requires forall b :: b in s.bills && Open(s'.bills[b].status) ==> Open(s.bills[b].status) && !Concerns(x, b)
    ensures Inv(s')
  {
    DecidedRow(s.approvals, p, x);
    AllRequestedStay(s, s');
    PostedStayDecided(s, s');
    assert IdsFresh(s') by {
      forall i, b: int | 0 <= i < |s'.approvals| && Concerns(s'.approvals[i], b)
        ensures b < s'.nextBill
      {
        assert Concerns(s.approvals[i], b);
      }
    }
    assert OpenAreUntouched(s');
    assert DutiesSegregated(s'.approvals);
  }

  lemma ResolveKeepsInv(s: Office, e: Event)
    requires Inv(s) && (e.DoApprove? || e.DoReject?)
    ensures Inv(Step(s, e)) && Extends(s.approvals, Step(s, e).approvals)
  {
    if Call(s, e).Some? {
      DecisionKeepsInv(s, Step(s, e), e.approval, Step(s, e).approvals[e.approval]);
    }
  }

  /** Posting a bill that is no longer open, has no journal, and is decided unless it was quoted. */
  lemma PostingKeepsInv(s: Office, j: Journal)
    requires Inv(s) && j.bill in s.bills && !Open(s.bills[j.bill].status) && Unposted(s.journals, j.bill)
    requires j.bill !in s.quoted ==> !Undecided(s.approvals, j.bill)
    ensures Inv(s.(journals := s.journals + [j]))
  {
    var s' := s.(journals := s.journals + [j]);
    assert CreatedAreRequested(s');
    assert OpenAreUntouched(s');
  }

  /** Approval of a submitted bill: the row it finds, if any, is still pending. */
  lemma SubmittedIsRequested(s: Office, id: int, pick: Option<nat>)
    requires Inv(s) && id in s.bills && s.bills[id].status.Submitted? && Returned(s.approvals, id, pick)
    ensures pick.Some? ==> s.approvals[pick.value].verdict.Pending? && Concerns(s.approvals[pick.value], id)
    ensures id !in s.quoted ==> pick.Some?
  {
    LowerBill();
    assert Untouched(s, id);
  }

  lemma ApproveBillKeepsInv(s: Office, e: Event)
    requires Inv(s) && e.DoApproveBill?
    ensures Inv(Step(s, e)) && Extends(s.approvals, Step(s, e).approvals)
  {
    if Call(s, e).Some? {
      SubmittedIsRequested(s, e.id, e.pick);
      assert Untouched(s, e.id);
      var approved := SetStatus(s, e.id, Approved);
      if e.pick.Some? {
        var p := e.pick.value;
        var x := s.approvals[p].(verdict := Granted);
        DecidedRow(s.approvals, p, x);
        DecisionKeepsInv(s, approved.(approvals := s.approvals[p := x]), p, x);
      } else {
        BillsStepKeepsInv(s, approved);
      }
      PostingKeepsInv(Step(s, e).(journals := s.journals), Posting(e.id, s.bills[e.id]));
    }
  }

  /** Every step keeps the joint invariant, except exactly the updates that reopen a decided or posted bill. */
  lemma StepKeepsInvIff(s: Office, e: Event)
    requires Inv(s)
    ensures Inv(Step(s, e)) <==> !Reopens(s, e)
  {
    match e
    case DoCreate(_, _, _, _, _) => CreateKeepsInv(s, e);
    case DoConvert(_, _, _) => ConvertKeepsInv(s, e);
    case DoUpdate(_, _) => UpdateKeepsInvIff(s, e);
    case DoApproveBill(_, _) => ApproveBillKeepsInv(s, e);
    case DoRequest(_, _, _, _) => RequestKeepsInv(s, e);
    case DoApprove(_, _, _) => ResolveKeepsInv(s, e);
    case DoReject(_, _, _, _) => ResolveKeepsInv(s, e);
    case _ => StatusStepKeepsInv(s, e);
  }

  /** A decided approval row never changes again. */
  lemma DecidedNeverChanges(s: Office, e: Event, i: nat)
    requires Inv(s) && i < |s.approvals| && !s.approvals[i].verdict.Pending?
    ensures i < |Step(s, e).approvals| && Step(s, e).approvals[i] == s.approvals[i]
  {
  }

  // ---------------------------------------------------------------- runs

  ghost predicate NeverReopens(s: Office, es: seq<Event>)
    decreases es
  {
    es == [] || (!Reopens(s, es[0]) && NeverReopens(Step(s, es[0]), es[1..]))
  }

  lemma {:induction false} RunKeepsInv(s: Office, es: seq<Event>)
    requires Inv(s) && NeverReopens(s, es)
    ensures Inv(Run(s, es))
    decreases es
  {
    if es != [] {
      StepKeepsInvIff(s, es[0]);
      RunKeepsInv(Step(s, es[0]), es[1..]);
    }
  }

  lemma {:induction false} DecidedStaysOverRuns(s: Office, es: seq<Event>, i: nat)
    requires Inv(s) && NeverReopens(s, es) && i < |s.approvals| && !s.approvals[i].verdict.Pending?
    ensures i < |Run(s, es).approvals| && Run(s, es).approvals[i] == s.approvals[i]
    decreases es
  {
    if es != [] {
      StepKeepsInvIff(s, es[0]);
      DecidedNeverChanges(s, es[0], i);
      DecidedStaysOverRuns(Step(s, es[0]), es[1..], i);
    }
  }

  ghost predicate AtMostOnePending(approvals: seq<Approval>, bill: int) {
    && Undecided(approvals, bill)
    && forall i, j :: 0 <= i < j < |approvals| ==> !(Concerns(approvals[i], bill) && Concerns(approvals[j], bill))
  }

  lemma OpenHasOnePending(s: Office, b: int)
    requires Inv(s) && b in s.bills && Open(s.bills[b].status)
    ensures AtMostOnePending(s.approvals, b) && Unposted(s.journals, b)
  {
    assert Untouched(s, b);
    forall i, j | 0 <= i < j < |s.approvals|
      ensures !(Concerns(s.approvals[i], b) && Concerns(s.approvals[j], b))
    {
      assert !(s.approvals[i].verdict.Pending? && s.approvals[j].verdict.Pending?)
             || !SameEntity(s.approvals[i], s.approvals[j]);
    }
  }

  /**
   * From empty tables, over all interleavings that never reopen a decided or posted bill:
   * an open bill has at most one approval, which is pending, and no journal; a bill that was
   * not made from a quotation has an approval; no entity has two pending approvals; a bill
   * has at most one J-RAB journal; nobody decides their own request.
   */
  lemma JointBillInvariant(es: seq<Event>)
    requires NeverReopens(EMPTY, es)
    ensures var s := Run(EMPTY, es);
      && (forall b :: b in s.bills && Open(s.bills[b].status) ==>
            AtMostOnePending(s.approvals, b) && Unposted(s.journals, b))
      && (forall b :: b in s.bills && b !in s.quoted ==> Requested(s.approvals, b))
      && OnePendingEach(s.approvals) && OneJournalEach(s.journals) && DutiesSegregated(s.approvals)
  {
    RunKeepsInv(EMPTY, es);
    var s := Run(EMPTY, es);
    forall b | b in s.bills && Open(s.bills[b].status)
      ensures AtMostOnePending(s.approvals, b) && Unposted(s.journals, b)
    {
      OpenHasOnePending(s, b);
    }
  }

  /** A bill decided through the approval workflow before it was posted is never posted afterwards. */
  lemma {:induction false} DecidedIsNeverPosted(s: Office, es: seq<Event>, b: int)
    requires Inv(s) && NeverReopens(s, es) && b < s.nextBill && !Undecided(s.approvals, b)
    requires Unposted(s.journals, b)
    ensures Unposted(Run(s, es).journals, b)
    decreases es
  {
    if es != [] {
      var s' := Step(s, es[0]);
      StepKeepsInvIff(s, es[0]);
      DecidedBillGetsNoJournal(s, es[0], b);
      DecidedIsNeverPosted(s', es[1..], b);
    }
  }

  lemma DecidedBillGetsNoJournal(s: Office, e: Event, b: int)
    requires Inv(s) && b < s.nextBill && !Undecided(s.approvals, b) && Unposted(s.journals, b)
    ensures var s' := Step(s, e);
            b < s'.nextBill && !Undecided(s'.approvals, b) && Unposted(s'.journals, b)
  {
    var i :| 0 <= i < |s.approvals| && Concerns(s.approvals[i], b) && !s.approvals[i].verdict.Pending?;
    DecidedNeverChanges(s, e, i);
    assert Concerns(Step(s, e).approvals[i], b);
    if e.DoApproveBill? && Call(s, e).Some? {
      assert Untouched(s, e.id);
    }
  }

  /** The ways in which a step other than an update may move the status of a bill. */
  ghost predicate Moves(e: Event, b: int, was: Status, is': Status) {
    || is' == was
    || (e == DoSubmit(b) && was.Draft? && is'.Submitted?)
    || (e.DoApproveBill? && e.id == b && was.Submitted? && is'.Approved?)
    || (e == DoPayBill(b) && was.Approved? && is'.Paid?)
    || (e.DoApprove? && is'.Approved?)
    || (e.DoReject? && is'.Rejected?)
    || (e.DoPayContractor? && e.id == b && was in {Approved, Partial, Paid} && is' in {Partial, Paid})
  }

  /** Apart from updates a status moves along the life cycle only, and one bill at a time. */
  lemma StatusMoves(s: Office, e: Event, b: int)
    requires b in s.bills && b in Step(s, e).bills && b < s.nextBill && !e.DoUpdate?
    ensures Moves(e, b, s.bills[b].status, Step(s, e).bills[b].status)
    ensures (e.DoApprove? || e.DoReject?) && Step(s, e).bills[b].status != s.bills[b].status ==>
              e.approval < |s.approvals| && Concerns(s.approvals[e.approval], b)
              && s.approvals[e.approval].verdict.Pending? && s.approvals[e.approval].requestedBy != e.user
  {
  }

  const REOPEN := Patch(None, None, None, None, Some(Submitted))

  /** A submitted bill and the approval row, if any, that a query for it returned. */
  ghost predicate Approvable(s: Office, b: int, pick: Option<nat>) {
    b in s.bills && s.bills[b].status.Submitted? && Returned(s.approvals, b, pick)
  }

  lemma ApproveOnce(s: Office, b: int, pick: Option<nat>)
    requires Approvable(s, b, pick)
    ensures var s' := Step(s, DoApproveBill(b, pick));
            && s'.journals == s.journals + [Posting(b, s.bills[b])]
            && s'.bills == s.bills[b := s.bills[b].(status := Approved)] && Returned(s'.approvals, b, pick)
  {
  }

  lemma ReopenOnce(s: Office, b: int, pick: Option<nat>)
    requires b in s.bills && Returned(s.approvals, b, pick) && Patched(s.bills[b], REOPEN).Some?
    ensures var s' := Step(s, DoUpdate(b, REOPEN)); Approvable(s', b, pick) && s'.journals == s.journals
  {
  }

  /**
   * An update back to Submitted lets any bill be approved, and posted, twice: whatever
   * approvals it has, and also when it has none.
   */
  lemma ReopeningPostsTwice(s: Office, b: int, pick: Option<nat>)
    requires Approvable(s, b, pick)
    requires s.bills[b].deductions as real <= Gross(s.bills[b].quantity, s.bills[b].rate)
    ensures var approve := DoApproveBill(b, pick);
            var js := Run(s, [approve] + ([DoUpdate(b, REOPEN)] + [approve])).journals;
            && |js| == |s.journals| + 2 && js[..|s.journals|] == s.journals
            && js[|s.journals|].bill == js[|s.journals| + 1].bill == b
  {
    var approve, reopen := DoApproveBill(b, pick), DoUpdate(b, REOPEN);
    var s1 := Step(s, approve);
    var s2 := Step(s1, reopen);
    ApproveOnce(s, b, pick);
    ReopenOnce(s1, b, pick);
    ApproveOnce(s2, b, pick);
    RunFirst(s, approve, [reopen] + [approve]);
    RunFirst(s1, reopen, [approve]);
    assert [approve] == [approve] + [];
    RunFirst(s2, approve, []);
  }

  lemma RunFirst(s: Office, e: Event, rest: seq<Event>)
    ensures Run(s, [e] + rest) == Run(Step(s, e), rest)
  {
    assert ([e] + rest)[1..] == rest;
  }

  // ---------------------------------------------------------------- what an approved bill posts

  /** What the amounts of a row are computed from: request fields, and stored ones where an update gave none. */
  predicate FactorsOk(quantity: real, rate: real, deductions: real, gstPercent: real) {
    quantity >= 0.0 && rate >= 0.0 && deductions >= 0.0 && gstPercent >= 0.0
  }

  function Drift(j: Journal): int {
    j.revenue + j.gst - j.receivable
  }

  lemma GstNonNegative(net: real, gstPercent: real)
    requires net >= 0.0 && gstPercent >= 0.0
    ensures net * gstPercent / 100.0 >= 0.0
    ensures WithGst(net, gstPercent) >= 0.0
  {
  }

  /** What storing net and deductions apart carries over. */
  function NetCarry(quantity: real, rate: real, deductions: real): int {
    Carry(Residue(Net(quantity, rate, deductions)) + Residue(deductions))
  }

  /** What the exact total carries over stored net and posted GST. */
  function TotalCarry(quantity: real, rate: real, deductions: real, gstPercent: real): int {
    var net := Net(quantity, rate, deductions);
    Carry(WithGst(net, gstPercent) - (Stored(net) + Stored(GstOn(Stored(net), Hundredths(gstPercent)))) as real)
  }

  lemma PostedGst(id: int, b: Bill)
    requires b.net >= 0 && b.gstPercent >= 0.0
    ensures Posting(id, b).gst == Stored(GstCents(b))
  {
    GstNonNegative(b.net as real, b.gstPercent);
    assert (0.0 + 0.5 as real).Floor == 0;
  }

  lemma HundredthsNonNegative(x: real)
    requires x >= 0.0
    ensures Hundredths(x) >= 0.0
  {
    StoredFacts(x * 100.0);
  }

  /** Storing the parts of two sums, and what is carried by that. */
  lemma PartsCarry(gross: real, net: real, deductions: real, total: real, gst: int)
    requires gross == net + deductions && net >= 0.0 && deductions >= 0.0 && total >= 0.0
    ensures Stored(gross) - Stored(net) == Stored(deductions) + Carry(Residue(net) + Residue(deductions))
    ensures Stored(total) == Stored(net) + gst + Carry(total - (Stored(net) + gst) as real)
  {
    StoredCarries(gross, Stored(net) + Stored(deductions));
    assert gross - (Stored(net) + Stored(deductions)) as real == Residue(net) + Residue(deductions);
    StoredCarries(total, Stored(net) + gst);
  }

  /** The drift of a row in terms of the exact amounts it stores. */
  lemma RowDrift(id: int, b: Bill, gross: real, net: real, deductions: real, total: real)
    requires gross == net + deductions && net >= 0.0 && deductions >= 0.0 && total >= 0.0 && b.gstPercent >= 0.0
    requires b.gross == Stored(gross) && b.net == Stored(net)
    requires b.deductions == Stored(deductions) && b.total == Stored(total)
    ensures b.gross - b.net == b.deductions + Carry(Residue(net) + Residue(deductions))
    ensures Drift(Posting(id, b)) == b.deductions + Carry(Residue(net) + Residue(deductions))
                                     - Carry(total - (Stored(net) + Stored(GstCents(b))) as real)
  {
    StoredFacts(net);
    PostedGst(id, b);
    PartsCarry(gross, net, deductions, total, Stored(GstCents(b)));
  }

  /**
   * The posting debits the total but credits gross plus GST: for every bill the handlers
   * accept it misses balance by the stored deductions, plus the cents that storing net and
   * deductions apart carries, less those that the exact total carries.
   */
  lemma PostingDriftsByDeductions(id: int, quantity: real, rate: real, deductions: real, gstPercent: real, st: Status)
    requires FactorsOk(quantity, rate, deductions, gstPercent)
    requires Priced(quantity, rate, deductions, gstPercent, st).Some?
    ensures var b := Priced(quantity, rate, deductions, gstPercent, st).value;
            && b.gross - b.net == b.deductions + NetCarry(quantity, rate, deductions)
            && Drift(Posting(id, b)) == b.deductions + NetCarry(quantity, rate, deductions)
                                        - TotalCarry(quantity, rate, deductions, gstPercent)
  {
    var b := Priced(quantity, rate, deductions, gstPercent, st).value;
    var gross, net := Gross(quantity, rate), Net(quantity, rate, deductions);
    HundredthsNonNegative(gstPercent);
    GstNonNegative(net, gstPercent);
    RowDrift(id, b, gross, net, deductions, WithGst(net, gstPercent));
    assert GstCents(b) == GstOn(Stored(net), Hundredths(gstPercent));
  }

  /** The drift is exactly the deductions if and only if the two carries of the request agree. */
  lemma PostingDriftIff(id: int, quantity: real, rate: real, deductions: real, gstPercent: real, st: Status)
    requires FactorsOk(quantity, rate, deductions, gstPercent)
    requires Priced(quantity, rate, deductions, gstPercent, st).Some?
    ensures var b := Priced(quantity, rate, deductions, gstPercent, st).value;
            Drift(Posting(id, b)) == b.deductions
            <==> NetCarry(quantity, rate, deductions) == TotalCarry(quantity, rate, deductions, gstPercent)
  {
    PostingDriftsByDeductions(id, quantity, rate, deductions, gstPercent, st);
  }

  /** Nothing is carried when net and deductions are whole cents and the percentage has two decimals. */
  lemma WholeCentsCarryNothing(quantity: real, rate: real, deductions: real, gstPercent: real)
    requires FactorsOk(quantity, rate, deductions, gstPercent) && deductions <= Gross(quantity, rate)
    requires Whole(deductions) && Whole(Net(quantity, rate, deductions)) && Hundredths(gstPercent) == gstPercent
    ensures NetCarry(quantity, rate, deductions) == 0 == TotalCarry(quantity, rate, deductions, gstPercent)
  {
    var net := Net(quantity, rate, deductions);
    WholeRoundsToItself(net);
    WholeRoundsToItself(deductions);
    assert (0.5 as real).Floor == 0;
    GstNonNegative(net, gstPercent);
    SmallResidueCarriesNothing(net * gstPercent / 100.0);
  }

  /** Half a cent of net at 100% GST: total 1 cent, but net and GST are posted as a cent each. */
  lemma HalfCentNetDrifts(id: int, b: Bill)
    requires Some(b) == Priced(0.1, 0.05, 0.0, 100.0, Submitted)
    ensures b.deductions == 0 && Drift(Posting(id, b)) == 1
  {
    assert Net(0.1, 0.05, 0.0) == 0.5 && WithGst(0.5, 100.0) == 1.0;
    assert (0.5 + 0.5 as real).Floor == 1 && (1.0 + 0.5 as real).Floor == 1;
    assert (10000.0 + 0.5 as real).Floor == 10000 && (0.0 + 0.5 as real).Floor == 0;
  }

  /** Ten cents less half a cent: stored deductions of one cent, yet the posting balances. */
  lemma HalfCentDeductionsVanish(id: int, b: Bill)
    requires Some(b) == Priced(1.0, 0.1, 0.5, 0.0, Submitted)
    ensures b.deductions == 1 && Drift(Posting(id, b)) == 0
  {
    assert Net(1.0, 0.1, 0.5) == 9.5 && WithGst(9.5, 0.0) == 9.5;
    assert (9.5 + 0.5 as real).Floor == 10 && (10.0 + 0.5 as real).Floor == 10;
    assert (0.5 + 0.5 as real).Floor == 1 && (0.0 + 0.5 as real).Floor == 0;
  }

  // ---------------------------------------------------------------- where the rows come from

  datatype Pricing =
    | FromFactors(quantity: real, rate: real, deductions: real, gstPercent: real)
    | FromQuotation(total: int, percent: Percentage)

  /** The row is what the pricing stores. */
  predicate PricedBy(p: Pricing, b: Bill) {
    match p
    case FromFactors(q, r, d, g) => FactorsOk(q, r, d, g) && Priced(q, r, d, g, b.status) == Some(b)
    case FromQuotation(t, g) => Converted(t, g).(status := b.status) == b
  }

  ghost predicate AllPriced(s: Office) {
    forall b :: b in s.bills ==> exists p :: PricedBy(p, s.bills[b])
  }

  /** The stored fields that an update may fall back on; only a quotation can leave a negative rate. */
  lemma StoredFactors(p: Pricing, b: Bill)
    requires PricedBy(p, b)
    ensures b.quantity >= 0.0 && b.deductions >= 0 && b.gstPercent >= 0.0
    ensures b.rate < 0.0 ==> b.quantity == 1.0
  {
    if p.FromQuotation? {
      HundredthsNonNegative(p.percent);
    } else {
      HundredthsNonNegative(p.gstPercent);
      HundredthsNonNegative(p.rate);
      StoredFacts(p.quantity * 1000.0);
      StoredFacts(p.deductions);
    }
  }

  lemma NegativeRateIsRefused(quantity: real, rate: real, deductions: real)
    requires quantity > 0.0 && rate < 0.0 && deductions >= 0.0
    ensures deductions > Gross(quantity, rate)
  {
  }

  lemma UpdateIsPriced(b: Bill, patch: Patch, p: Pricing)
    requires PricedBy(p, b) && PatchOk(patch) && Patched(b, patch).Some?
    ensures exists p' :: PricedBy(p', Patched(b, patch).value)
  {
    StoredFactors(p, b);
    var q, r := Or(patch.quantity, b.quantity), Or(patch.rate, b.rate);
    var d, g := Or(patch.deductions, b.deductions as real), Or(patch.gstPercent, b.gstPercent);
    if r < 0.0 {
      NegativeRateIsRefused(q, r, d);
    }
    assert PricedBy(FromFactors(q, r, d, g), Patched(b, patch).value);
  }

  /** Every row of s' is priced, or is a row of s but for its status. */
  ghost predicate NewRowsPriced(s: Office, s': Office) {
    forall b :: b in s'.bills ==>
      (exists p :: PricedBy(p, s'.bills[b]))
      || (b in s.bills && s'.bills[b] == s.bills[b].(status := s'.bills[b].status))
  }

  lemma NewRowsSuffice(s: Office, s': Office)
    requires AllPriced(s) && NewRowsPriced(s, s')
    ensures AllPriced(s')
  {
    forall b | b in s'.bills
      ensures exists p :: PricedBy(p, s'.bills[b])
    {
      if b in s.bills && s'.bills[b] == s.bills[b].(status := s'.bills[b].status) {
        var p :| PricedBy(p, s.bills[b]);
        assert PricedBy(p, s'.bills[b]);
      }
    }
  }

  lemma StepKeepsPriced(s: Office, e: Event)
    requires AllPriced(s)
    ensures AllPriced(Step(s, e))
  {
    if Call(s, e).Some? {
      match e
      case DoCreate(_, q, r, d, g) =>
        assert PricedBy(FromFactors(q, r, d, g), Step(s, e).bills[s.nextBill]);
      case DoConvert(t, g, _) =>
        assert PricedBy(FromQuotation(t, g), Step(s, e).bills[s.nextBill]);
      case DoUpdate(id, patch) =>
        var p :| PricedBy(p, s.bills[id]);
        UpdateIsPriced(s.bills[id], patch, p);
      case _ =>
    }
    NewRowsSuffice(s, Step(s, e));
  }

  /** In every run each row holds what one pricing stores: of a request, of an update, or of a quotation. */
  lemma {:induction false} RowsArePriced(s: Office, es: seq<Event>)
    requires AllPriced(s)
    ensures AllPriced(Run(s, es))
    decreases es
  {
    if es != [] {
      StepKeepsPriced(s, es[0]);
      RowsArePriced(Step(s, es[0]), es[1..]);
    }
  }

  /**
   * What the posting of a row credits and debits in excess, besides its deductions: the
   * carries, and for a quotation the GST that its total does not hold.
   */
  function Gain(p: Pricing): int {
    match p
    case FromFactors(q, r, d, _) => NetCarry(q, r, d)
    case FromQuotation(t, g) => Posting(t, Converted(t, g)).gst
  }

  function Loss(p: Pricing): int {
    if p.FromFactors? then TotalCarry(p.quantity, p.rate, p.deductions, p.gstPercent) else 0
  }

  /** So every posting misses balance by its deductions and by what its pricing gains and loses. */
  lemma DriftByPricing(id: int, b: Bill, p: Pricing)
    requires PricedBy(p, b)
    ensures Drift(Posting(id, b)) == b.deductions + Gain(p) - Loss(p)
  {
    if p.FromFactors? {
      PostingDriftsByDeductions(id, p.quantity, p.rate, p.deductions, p.gstPercent, b.status);
    }
  }

  /** A quotation of 100.00 at 18% is posted 18.00 out of balance, without any deductions. */
  lemma QuotationDrifts(id: int, percent: Percentage)
    requires percent == 18.0
    ensures var b := Converted(10000, percent); b.deductions == 0 && Drift(Posting(id, b)) == 1800
  {
    assert (1800.0 + 0.5 as real).Floor == 1800;
  }

  /**
   * With deductions in whole cents and a percentage of at most a hundred, the drift of a
   * priced row is within a cent of its deductions.
   */
  lemma DriftIsWithinACent(id: int, b: Bill, p: Pricing)
    requires PricedBy(p, b) && p.FromFactors? && Whole(p.deductions)
    requires Hundredths(p.gstPercent) == p.gstPercent <= 100.0
    ensures b.deductions - 1 <= Drift(Posting(id, b)) <= b.deductions + 1
  {
    DriftByPricing(id, b, p);
    NothingOfTheNet(Net(p.quantity, p.rate, p.deductions), p.deductions);
    AtMostACent(Net(p.quantity, p.rate, p.deductions), p.gstPercent);
  }

  lemma NothingOfTheNet(net: real, deductions: real)
    requires net >= 0.0 && Whole(deductions)
    ensures Carry(Residue(net) + Residue(deductions)) == 0
  {
    WholeRoundsToItself(deductions);
    SmallResidueCarriesNothing(net);
    assert Residue(net) + Residue(deductions) == Residue(net);
  }

  lemma AtMostACent(net: real, g: real)
    requires net >= 0.0 && 0.0 <= g <= 100.0
    ensures -1 <= Carry(WithGst(net, g) - (Stored(net) + Stored(GstOn(Stored(net), g))) as real) <= 1
  {
    StoredFacts(net);
    SmallResidueCarriesNothing(net);
    GstNonNegative(Stored(net) as real, g);
    SmallResidueCarriesNothing(GstOn(Stored(net), g));
    GstSplits(net, g);
    ShareIsSmaller(Residue(net), g);
    CarryOfThreeHalves(Residue(net), Residue(net) * g / 100.0, Residue(GstOn(Stored(net), g)));
  }

  lemma CarryOfThreeHalves(x: real, y: real, z: real)
    requires -0.5 <= x < 0.5 && -0.5 <= y <= 0.5 && -0.5 <= z < 0.5
    ensures -1 <= Carry(x + y + z) <= 1
  {
  }

  /** What the total carries: the residue of the net, the GST on it, and the residue of the GST. */
  lemma GstSplits(net: real, g: real)
    ensures WithGst(net, g) - (Stored(net) + Stored(GstOn(Stored(net), g))) as real
         == Residue(net) + Residue(net) * g / 100.0 + Residue(GstOn(Stored(net), g))
  {
    var k := Stored(net) as real;
    assert net * g == k * g + (net - k) * g;
  }

  lemma ShareIsSmaller(r: real, g: real)
    requires -0.5 <= r < 0.5 && 0.0 <= g <= 100.0
    ensures -0.5 <= r * g / 100.0 <= 0.5
  {
    if r >= 0.0 {
      GstNonNegative(r, g);
      GstNonNegative(r, 100.0 - g);
    } else {
      GstNonNegative(-r, g);
      GstNonNegative(-r, 100.0 - g);
    }
  }

  // ---------------------------------------------------------------- contractor payments

  lemma {:induction false} PaidOnAppend(payments: seq<Payment>, p: Payment, link: string)
    ensures PaidOn(payments + [p], link) == PaidOn(payments, link) + (if p.linkedTo == link then p.amount else 0)
  {
    if payments == [] {
      assert [] + [p] == [p];
    } else {
      assert (payments + [p])[1..] == payments[1..] + [p];
      PaidOnAppend(payments[1..], p, link);
    }
  }

  lemma LinksDiffer(a: int, b: int)
    requires Link(a) == Link(b)
    ensures a == b
  {
    PrefixCancels("ra:", IntText(a), IntText(b));
    IntTextFacts(a, b);
  }

  /** Nothing overpaid, and nothing paid on bills that do not exist yet. */
  ghost predicate PaidWithin(s: Office) {
    && (forall b :: b in s.bills ==> 0 <= PaidOn(s.payments, Link(b)) <= s.bills[b].total)
    && (forall b :: b >= s.nextBill ==> PaidOn(s.payments, Link(b)) == 0)
    && (forall b :: b in s.bills ==> b < s.nextBill)
  }

  /** The recorded cents stay below what is pending, or are the amount itself. */
  predicate SafeAmount(pending: int, cents: real) {
    Whole(cents) || Stored(cents) < pending
  }

  /**
   * After an accepted payment the bill is not overpaid and is marked Paid exactly
   * when it is paid in full, precisely for amounts in whole cents or storing below
   * the pending sum. Finer amounts may overpay by a cent or leave a settled bill Partial.
   */
  lemma PaymentIsExactIff(s: Office, id: int, cents: real)
    requires PayContractor(s, id, cents).Some?
    ensures var s' := PayContractor(s, id, cents).value;
            var paid', total := PaidOn(s'.payments, Link(id)), s.bills[id].total;
            (paid' <= total && (s'.bills[id].status == Paid <==> paid' == total))
            <==> SafeAmount(total - PaidOn(s.payments, Link(id)), cents)
  {
    var paid := PaidOn(s.payments, Link(id));
    PaidOnAppend(s.payments, Payment(Link(id), Stored(cents)), Link(id));
    StoredFacts(cents);
    if Whole(cents) {
      WholeRoundsToItself(cents);
    }
  }

  /** Half a cent over a pending sum of one is taken, and overpays. */
  lemma HalfCentOverpays(s: Office, id: int)
    requires id in s.bills && s.bills[id].status == Approved
    requires s.bills[id].total == 2 && PaidOn(s.payments, Link(id)) == 0
    ensures PayContractor(s, id, 2.5).Some?
    ensures PaidOn(PayContractor(s, id, 2.5).value.payments, Link(id)) == 3
  {
    assert (2.5 as real).Floor == 2 && (3.0 as real).Floor == 3;
    PaidOnAppend(s.payments, Payment(Link(id), 3), Link(id));
  }

  /**
   * What a caller can compute beforehand: a repricing covers what is paid already, a
   * payment as stored fits what is pending, and a quotation is not converted below zero.
   */
  ghost predicate RespectsPaid(s: Office, e: Event) {
    match e
    case DoUpdate(id, p) =>
      id in s.bills && PatchOk(p) && Patched(s.bills[id], p).Some? ==>
        PaidOn(s.payments, Link(id)) <= Patched(s.bills[id], p).value.total
    case DoPayContractor(id, cents) =>
      Call(s, e).Some? ==> Stored(cents) <= s.bills[id].total - PaidOn(s.payments, Link(id))
    case DoConvert(total, _, usable) => usable ==> total >= 0
    case _ => true
  }

  lemma PricedIsWorthSomething(quantity: real, rate: real, deductions: real, gstPercent: real, st: Status)
    requires PayloadOk(quantity, rate, deductions, gstPercent)
    requires Priced(quantity, rate, deductions, gstPercent, st).Some?
    ensures Priced(quantity, rate, deductions, gstPercent, st).value.total >= 0
  {
    var net := Net(quantity, rate, deductions);
    GstNonNegative(net, gstPercent);
    StoredFacts(WithGst(net, gstPercent));
  }

  /** A new bill is unpaid, so it only must not be worth less than nothing. */
  lemma NewBillKeepsPaidIff(s: Office, s': Office)
    requires PaidWithin(s) && s'.payments == s.payments && s'.nextBill == s.nextBill + 1
    requires s'.bills.Keys == s.bills.Keys + {s.nextBill}
    requires forall b :: b in s.bills && b != s.nextBill ==> s'.bills[b] == s.bills[b]
    ensures PaidWithin(s') <==> s'.bills[s.nextBill].total >= 0
  {
    assert PaidOn(s.payments, Link(s.nextBill)) == 0;
  }

  lemma RepriceKeepsPaidIff(s: Office, id: int, b: Bill)
    requires PaidWithin(s) && id in s.bills
    ensures PaidWithin(s.(bills := s.bills[id := b])) <==> PaidOn(s.payments, Link(id)) <= b.total
  {
  }

  /** A payment counts for its own bill and for no other. */
  lemma PaidAfter(payments: seq<Payment>, id: int, amount: int, b: int)
    ensures PaidOn(payments + [Payment(Link(id), amount)], Link(b))
         == PaidOn(payments, Link(b)) + (if b == id then amount else 0)
  {
    PaidOnAppend(payments, Payment(Link(id), amount), Link(b));
    if Link(b) == Link(id) {
      LinksDiffer(b, id);
    }
  }

  lemma PaymentKeepsPaidIff(s: Office, s': Office, id: int, amount: int)
    requires PaidWithin(s) && id in s.bills && amount >= 0
    requires s'.payments == s.payments + [Payment(Link(id), amount)] && s'.nextBill == s.nextBill
    requires s'.bills.Keys == s.bills.Keys && forall b :: b in s.bills ==> s'.bills[b].total == s.bills[b].total
    ensures PaidWithin(s') <==> amount <= s.bills[id].total - PaidOn(s.payments, Link(id))
  {
    forall b
      ensures PaidOn(s'.payments, Link(b)) == PaidOn(s.payments, Link(b)) + (if b == id then amount else 0)
    {
      PaidAfter(s.payments, id, amount, b);
    }
  }

  lemma QuietStepKeepsPaid(s: Office, s': Office)
    requires PaidWithin(s) && s'.payments == s.payments && s'.nextBill == s.nextBill
    requires forall b :: b in s'.bills ==> b in s.bills && s'.bills[b].total == s.bills[b].total
    ensures PaidWithin(s')
  {
  }

  lemma PayStepKeepsPaidIff(s: Office, id: int, cents: real)
    requires PaidWithin(s) && PayContractor(s, id, cents).Some?
    ensures PaidWithin(PayContractor(s, id, cents).value) <==> RespectsPaid(s, DoPayContractor(id, cents))
  {
    StoredFacts(cents);
    PaymentKeepsPaidIff(s, PayContractor(s, id, cents).value, id, Stored(cents));
  }

  lemma CreateStepKeepsPaid(s: Office, e: Event)
    requires PaidWithin(s) && e.DoCreate? && Call(s, e).Some?
    ensures PaidWithin(Step(s, e))
  {
    PricedIsWorthSomething(e.quantity, e.rate, e.deductions, e.gstPercent, Draft);
    NewBillKeepsPaidIff(s, Step(s, e));
  }

  lemma StatusStepKeepsPaid(s: Office, e: Event)
    requires PaidWithin(s) && !(e.DoCreate? || e.DoConvert? || e.DoUpdate? || e.DoPayContractor?)
    ensures PaidWithin(Step(s, e))
  {
    QuietStepKeepsPaid(s, Step(s, e));
  }

  /** Paid stays within [0, total] exactly under those steps. */
  lemma StepKeepsPaidIff(s: Office, e: Event)
    requires PaidWithin(s)
    ensures PaidWithin(Step(s, e)) <==> RespectsPaid(s, e)
  {
    if Call(s, e).Some? {
      match e
      case DoCreate(_, _, _, _, _) => CreateStepKeepsPaid(s, e);
      case DoConvert(_, _, _) => NewBillKeepsPaidIff(s, Step(s, e));
      case DoUpdate(id, p) => RepriceKeepsPaidIff(s, id, Patched(s.bills[id], p).value);
      case DoPayContractor(id, cents) => PayStepKeepsPaidIff(s, id, cents);
      case _ => StatusStepKeepsPaid(s, e);
    }
  }

  ghost predicate AlwaysRespectsPaid(s: Office, es: seq<Event>)
    decreases es
  {
    es == [] || (RespectsPaid(s, es[0]) && AlwaysRespectsPaid(Step(s, es[0]), es[1..]))
  }

  lemma {:induction false} PaidWithinOverRuns(s: Office, es: seq<Event>)
    requires PaidWithin(s) && AlwaysRespectsPaid(s, es)
    ensures PaidWithin(Run(s, es))
    decreases es
  {
    if es != [] {
      StepKeepsPaidIff(s, es[0]);
      PaidWithinOverRuns(Step(s, es[0]), es[1..]);
    }
  }

  function Total(payments: seq<Payment>): int {
    if payments == [] then 0 else payments[0].amount + Total(payments[1..])
  }

  function Debits(vouchers: seq<Voucher>): int {
    if vouchers == [] then 0 else vouchers[0].payableDebit + Debits(vouchers[1..])
  }

  function Credits(vouchers: seq<Voucher>): int {
    if vouchers == [] then 0 else vouchers[0].bankCredit + Credits(vouchers[1..])
  }

  lemma {:induction false} VoucherAppend(vs: seq<Voucher>, v: Voucher)
    ensures Debits(vs + [v]) == Debits(vs) + v.payableDebit
    ensures Credits(vs + [v]) == Credits(vs) + v.bankCredit
  {
    if vs == [] {
      assert [] + [v] == [v];
    } else {
      assert (vs + [v])[1..] == vs[1..] + [v];
      VoucherAppend(vs[1..], v);
    }
  }

  lemma {:induction false} TotalAppend(ps: seq<Payment>, p: Payment)
    ensures Total(ps + [p]) == Total(ps) + p.amount
  {
    if ps == [] {
      assert [] + [p] == [p];
    } else {
      assert (ps + [p])[1..] == ps[1..] + [p];
      TotalAppend(ps[1..], p);
    }
  }

  /** Over every run, payable debits, bank credits and recorded payments grow alike. */
  lemma {:induction false} VouchersFollowPayments(s: Office, es: seq<Event>)
    ensures var s' := Run(s, es);
            Debits(s'.vouchers) - Debits(s.vouchers) == Total(s'.payments) - Total(s.payments)
            == Credits(s'.vouchers) - Credits(s.vouchers)
    decreases es
  {
    if es != [] {
      var s1 := Step(s, es[0]);
      if es[0].DoPayContractor? && Call(s, es[0]).Some? {
        var c := Stored(es[0].cents);
        VoucherAppend(s.vouchers, Voucher(c, c));
        TotalAppend(s.payments, Payment(Link(es[0].id), c));
      } else {
        assert s1.payments == s.payments && s1.vouchers == s.vouchers;
      }
      VouchersFollowPayments(s1, es[1..]);
    }
  }
}
