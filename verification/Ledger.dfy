/**
 * The double-entry ledger: the posting paths of app/api/accountant.py,
 * app/api/billing.py and app/api/attendance.py, the approval of journals, and
 * the trial balance and balance sheet. Amounts are cents.
 */
module Ledger {
  import opened Prelude
  import Billing
  import opened BillingRuns
  import Money
  import Text

  datatype Line = Line(account: int, debit: int, credit: int)

  datatype EntryStatus = Posted | Rejected

  /** `number` is set on bill and wage journals only, `createdBy` on petty cash and TDS journals only. */
  datatype Entry = Entry(number: Option<string>, status: EntryStatus, createdBy: Option<int>, lines: seq<Line>)

  /** Credit minus debit. */
  function Net(lines: seq<Line>): int {
    if lines == [] then 0 else Net(lines[..|lines| - 1]) + lines[|lines| - 1].credit - lines[|lines| - 1].debit
  }

  lemma {:induction false} NetAppend(lines: seq<Line>, l: Line)
    ensures Net(lines + [l]) == Net(lines) + l.credit - l.debit
  {
  }

  lemma NetOfTwo(a: Line, b: Line)
    ensures Net([a, b]) == a.credit - a.debit + b.credit - b.debit
  {
    assert [a, b] == [] + [a] + [b];
    NetAppend([], a);
    NetAppend([a], b);
  }

  // ---------------------------------------------------------------- posting paths

  function DebitCredit(debitAccount: int, creditAccount: int, amount: int): seq<Line> {
    [Line(debitAccount, amount, 0), Line(creditAccount, 0, amount)]
  }

  /** approve_bill: receivable against revenue, and a GST line when there is GST. */
  function BillLines(receivable: int, revenue: int, gst: int, j: Billing.Journal, hasGst: bool): seq<Line> {
    [Line(receivable, j.receivable, 0), Line(revenue, 0, j.revenue)] + (if hasGst then [Line(gst, 0, j.gst)] else [])
  }

  /** check_out on an existing journal: the lines found on the two accounts are overwritten. */
  function Rewaged(l: Line, expense: int, payable: int, wage: int): Line {
    if l.account == expense then Line(l.account, wage, 0)
    else if l.account == payable then Line(l.account, 0, wage)
    else l
  }

  function RewageAll(lines: seq<Line>, expense: int, payable: int, wage: int): seq<Line> {
    seq(|lines|, i requires 0 <= i < |lines| => Rewaged(lines[i], expense, payable, wage))
  }

  /** A requested line: any decimal amounts, in cents. */
  datatype Request = Request(account: int, debit: real, credit: real)

  /** The lines as the columns keep them. */
  function StoredLines(lines: seq<Request>): seq<Line> {
    if lines == [] then []
    else
      var l := lines[|lines| - 1];
      StoredLines(lines[..|lines| - 1]) + [Line(l.account, Money.Stored(l.debit), Money.Stored(l.credit))]
  }

  /** Requests carry exact amounts in cents; the wage is quantized already. */
  datatype Event =
    | Manual(lines: seq<Request>)
    | BillApproved(receivable: int, revenue: int, gst: int, id: int, bill: Billing.Bill)
    | ContractorPaid(payable: int, bank: int, cents: real)
    | PettyCash(user: int, cash: int, other: int, cents: real, cashOut: bool)
    | Tds(user: int, vendor: int, tds: int, cents: real)
    | Wage(expenseId: int, expense: int, payable: int, amount: int)
    | Decide(entry: nat, status: EntryStatus)

  function ExactDebits(lines: seq<Request>): real {
    if lines == [] then 0.0 else ExactDebits(lines[..|lines| - 1]) + lines[|lines| - 1].debit
  }

  function ExactCredits(lines: seq<Request>): real {
    if lines == [] then 0.0 else ExactCredits(lines[..|lines| - 1]) + lines[|lines| - 1].credit
  }

  /** The totals are compared exactly, before anything is stored. */
  predicate ManualOk(lines: seq<Request>) {
    && ExactDebits(lines) == ExactCredits(lines)
    && forall i :: 0 <= i < |lines| ==> !(lines[i].debit == 0.0 && lines[i].credit == 0.0)
  }

  function WageNumber(expenseId: int): string {
    "J-EXP-" + Text.IntText(expenseId)
  }

  function BillNumber(id: int): string {
    "J-RAB-" + Text.IntText(id)
  }

  function Find(entries: seq<Entry>, number: string): Option<nat> {
    if entries == [] then None
    else
      var n := |entries| - 1;
      var f := Find(entries[..n], number);
      if f.Some? then f else if entries[n].number == Some(number) then Some(n) else None
  }

  lemma {:induction false} FindFacts(entries: seq<Entry>, number: string)
    ensures Find(entries, number).Some? ==>
              Find(entries, number).value < |entries| && entries[Find(entries, number).value].number == Some(number)
  {
    if entries != [] {
      FindFacts(entries[..|entries| - 1], number);
    }
  }

  /** What the event appends; none when it appends nothing. */
  function Appended(entries: seq<Entry>, e: Event): Option<Entry> {
    match e
    case Manual(lines) =>
      if ManualOk(lines) then Some(Entry(None, Posted, None, StoredLines(lines))) else None
    case BillApproved(ar, rev, gst, id, b) =>
      Some(Entry(Some(BillNumber(id)), Posted, None,
                 BillLines(ar, rev, gst, Billing.Posting(id, b), Billing.GstCents(b) > 0.0)))
    case ContractorPaid(payable, bank, cents) =>
      Some(Entry(None, Posted, None, DebitCredit(payable, bank, Money.Stored(cents))))
    case PettyCash(user, cash, other, cents, cashOut) =>
      if cents <= 0.0 || cash == other then None
      else
        var amount := Money.Stored(cents);
        Some(Entry(None, Posted, Some(user),
                   if cashOut then DebitCredit(other, cash, amount) else DebitCredit(cash, other, amount)))
    case Tds(user, vendor, tds, cents) =>
      Some(Entry(None, Posted, Some(user), DebitCredit(vendor, tds, Money.Stored(cents))))
    case Wage(id, expense, payable, amount) =>
      if Find(entries, WageNumber(id)).Some? then None
      else Some(Entry(Some(WageNumber(id)), Posted, None, DebitCredit(expense, payable, amount)))
    case Decide(_, _) => None
  }

  /** What the event changes in place. Journals without a creator cannot be found by the approval workflow. */
  function Changed(entries: seq<Entry>, e: Event): seq<Entry> {
    match e
    case Wage(id, expense, payable, amount) =>
      var f := Find(entries, WageNumber(id));
      if f.None? || f.value >= |entries| then entries
      else entries[f.value := entries[f.value].(lines := RewageAll(entries[f.value].lines, expense, payable, amount))]
    case Decide(i, status) =>
      if i >= |entries| || entries[i].createdBy.None? then entries else entries[i := entries[i].(status := status)]
    case _ => entries
  }

  function Step(entries: seq<Entry>, e: Event): seq<Entry> {
    var a := Appended(entries, e);
    if a.Some? then entries + [a.value] else Changed(entries, e)
  }

  function Run(entries: seq<Entry>, es: seq<Event>): seq<Entry>
    decreases es
  {
    if es == [] then entries else Run(Step(entries, es[0]), es[1..])
  }

  // ---------------------------------------------------------------- conservation

  /** Posted credit minus posted debit over the first n entries. */
  function PostedTo(entries: seq<Entry>, n: nat): int
    requires n <= |entries|
  {
    if n == 0 then 0
    else PostedTo(entries, n - 1) + (if entries[n - 1].status.Posted? then Net(entries[n - 1].lines) else 0)
  }

  function PostedNet(entries: seq<Entry>): int {
    PostedTo(entries, |entries|)
  }

  lemma {:induction false} PostedPrefix(entries: seq<Entry>, more: seq<Entry>, n: nat)
    requires n <= |entries| && n <= |more| && entries[..n] == more[..n]
    ensures PostedTo(entries, n) == PostedTo(more, n)
  {
    if n > 0 {
      assert entries[..n][..n - 1] == entries[..n - 1] && more[..n][..n - 1] == more[..n - 1];
      assert entries[n - 1] == entries[..n][n - 1] == more[..n][n - 1];
      PostedPrefix(entries, more, n - 1);
    }
  }

  lemma {:induction false} PostedReplace(entries: seq<Entry>, k: nat, x: Entry, n: nat)
    requires k < n <= |entries|
    ensures PostedTo(entries[k := x], n) ==
            PostedTo(entries, n) - (if entries[k].status.Posted? then Net(entries[k].lines) else 0)
            + (if x.status.Posted? then Net(x.lines) else 0)
  {
    if k == n - 1 {
      PostedPrefix(entries[k := x], entries, n - 1);
    } else {
      PostedReplace(entries, k, x, n - 1);
    }
  }

  /**
   * Only entries with a creator can be decided, and those balance; numbered journals,
   * which bills and wages have, never get a creator.
   */
  ghost predicate EntryOk(x: Entry) {
    && (x.createdBy.Some? ==> Net(x.lines) == 0)
    && (x.createdBy.None? ==> x.status.Posted?)
    && (x.number.Some? ==> x.createdBy.None?)
  }

  ghost predicate Inv(entries: seq<Entry>) {
    forall i :: 0 <= i < |entries| ==> EntryOk(entries[i])
  }

  /** What a rewrite of an existing wage journal does to its balance. */
  function RewageDrift(entries: seq<Entry>, e: Event): int
    requires e.Wage?
  {
    var f := Find(entries, WageNumber(e.expenseId));
    if f.None? || f.value >= |entries| then 0
    else
      var lines := entries[f.value].lines;
      Net(RewageAll(lines, e.expense, e.payable, e.amount)) - Net(lines)
  }

  /** What an event adds to posted credit minus debit. */
  function DriftOf(entries: seq<Entry>, e: Event): int {
    match e
    case Manual(lines) => if ManualOk(lines) then Net(StoredLines(lines)) else 0
    case BillApproved(_, _, _, id, b) => Drift(Billing.Posting(id, b))
    case Wage(_, _, _, _) => RewageDrift(entries, e)
    case _ => 0
  }

  function DriftSum(entries: seq<Entry>, es: seq<Event>): int
    decreases es
  {
    if es == [] then 0 else DriftOf(entries, es[0]) + DriftSum(Step(entries, es[0]), es[1..])
  }

  lemma BillLinesDrift(ar: int, rev: int, gst: int, id: int, b: Billing.Bill)
    ensures var j := Billing.Posting(id, b);
            Net(BillLines(ar, rev, gst, j, Billing.GstCents(b) > 0.0)) == Drift(j)
  {
    var j := Billing.Posting(id, b);
    var two := [Line(ar, j.receivable, 0), Line(rev, 0, j.revenue)];
    NetOfTwo(two[0], two[1]);
    if Billing.GstCents(b) > 0.0 {
      NetAppend(two, Line(gst, 0, j.gst));
    } else {
      assert two + [] == two;
    }
  }

  /** A new entry balances but for the drift of a manual journal or a bill, and those have no creator. */
  lemma AppendedNet(entries: seq<Entry>, e: Event)
    requires Appended(entries, e).Some?
    ensures var x := Appended(entries, e).value;
            EntryOk(x) && x.status.Posted? && Net(x.lines) == DriftOf(entries, e)
  {
    match e
    case Manual(lines) =>
    case BillApproved(ar, rev, gst, id, b) => BillLinesDrift(ar, rev, gst, id, b);
    case ContractorPaid(payable, bank, cents) => PairBalances(payable, bank, Money.Stored(cents));
    case PettyCash(_, cash, other, cents, _) =>
      PairBalances(other, cash, Money.Stored(cents));
      PairBalances(cash, other, Money.Stored(cents));
    case Tds(_, vendor, tds, cents) => PairBalances(vendor, tds, Money.Stored(cents));
    case Wage(_, expense, payable, amount) => PairBalances(expense, payable, amount);
    case Decide(_, _) =>
  }

  lemma PairBalances(debit: int, credit: int, amount: int)
    ensures Net(DebitCredit(debit, credit, amount)) == 0
  {
    NetOfTwo(Line(debit, amount, 0), Line(credit, 0, amount));
  }

  lemma WageNumbersDiffer(a: int, b: int)
    requires WageNumber(a) == WageNumber(b)
    ensures a == b
  {
    Text.PrefixCancels("J-EXP-", Text.IntText(a), Text.IntText(b));
    Text.IntTextFacts(a, b);
  }

  lemma AppendConserves(entries: seq<Entry>, e: Event)
    requires Inv(entries) && Appended(entries, e).Some?
    ensures Inv(Step(entries, e)) && PostedNet(Step(entries, e)) == PostedNet(entries) + DriftOf(entries, e)
  {
    AppendedNet(entries, e);
    var entries' := Step(entries, e);
    assert entries'[..|entries|] == entries[..|entries|];
    PostedPrefix(entries', entries, |entries|);
  }

  lemma RewageConserves(entries: seq<Entry>, e: Event)
    requires Inv(entries) && e.Wage? && Appended(entries, e).None?
    ensures Inv(Step(entries, e)) && PostedNet(Step(entries, e)) == PostedNet(entries) + DriftOf(entries, e)
  {
    FindFacts(entries, WageNumber(e.expenseId));
    var k := Find(entries, WageNumber(e.expenseId)).value;
    var x := entries[k];
    assert EntryOk(x);
    var x' := x.(lines := RewageAll(x.lines, e.expense, e.payable, e.amount));
    assert Step(entries, e) == entries[k := x'];
    PostedReplace(entries, k, x', |entries|);
  }

  lemma DecideConserves(entries: seq<Entry>, e: Event)
    requires Inv(entries) && e.Decide?
    ensures Inv(Step(entries, e)) && PostedNet(Step(entries, e)) == PostedNet(entries)
  {
    if e.entry < |entries| && entries[e.entry].createdBy.Some? {
      var x := entries[e.entry];
      assert EntryOk(x);
      PostedReplace(entries, e.entry, x.(status := e.status), |entries|);
    }
  }

  lemma StepConserves(entries: seq<Entry>, e: Event)
    requires Inv(entries)
    ensures Inv(Step(entries, e)) && PostedNet(Step(entries, e)) == PostedNet(entries) + DriftOf(entries, e)
  {
    if Appended(entries, e).Some? {
      AppendConserves(entries, e);
    } else if e.Wage? {
      RewageConserves(entries, e);
    } else if e.Decide? {
      DecideConserves(entries, e);
    }
  }

  /**
   * Over every run of the posting paths and of journal decisions, whatever amounts are
   * requested and accounts looked up, posted credit minus posted debit grows by exactly the
   * drifts: of manual journals, of approved bills and of rewritten wages.
   */
  lemma {:induction false} LedgerConserves(entries: seq<Entry>, es: seq<Event>)
    requires Inv(entries)
    ensures Inv(Run(entries, es)) && PostedNet(Run(entries, es)) == PostedNet(entries) + DriftSum(entries, es)
    decreases es
  {
    if es != [] {
      StepConserves(entries, es[0]);
      LedgerConserves(Step(entries, es[0]), es[1..]);
    }
  }

  // ---------------------------------------------------------------- what is posted

  /** A bill's lines: the total against gross, and against GST on its net when there is any. */
  ghost predicate PostsBill(lines: seq<Line>, receivable: int, revenue: int, gst: int, b: Billing.Bill) {
    var tax := b.net as real * b.gstPercent / 100.0;
    && |lines| == (if tax > 0.0 then 3 else 2)
    && lines[0] == Line(receivable, b.total, 0) && lines[1] == Line(revenue, 0, b.gross)
    && (tax > 0.0 ==> lines[2].account == gst && lines[2].debit == 0 && Money.KeptAs(tax, lines[2].credit))
  }

  /** Requested lines, each amount kept as its column keeps it. */
  ghost predicate KeepsLines(request: seq<Request>, lines: seq<Line>) {
    |lines| == |request| && forall i :: 0 <= i < |request| ==>
      && lines[i].account == request[i].account
      && Money.KeptAs(request[i].debit, lines[i].debit) && Money.KeptAs(request[i].credit, lines[i].credit)
  }

  /** Two lines of one amount, debit first. */
  ghost predicate Pair(lines: seq<Line>, debit: int, credit: int, exact: real) {
    exists amount :: Money.KeptAs(exact, amount) && lines == [Line(debit, amount, 0), Line(credit, 0, amount)]
  }

  /** The entry that an event appends: posted, numbered for bills and wages, with a creator for petty cash and TDS. */
  ghost predicate Posts(e: Event, x: Entry) {
    && x.status == Posted
    && match e
       case Manual(lines) => x.number == None && x.createdBy == None && KeepsLines(lines, x.lines)
       case BillApproved(receivable, revenue, gst, id, b) =>
         && x.number == Some("J-RAB-" + Text.IntText(id)) && x.createdBy == None
         && PostsBill(x.lines, receivable, revenue, gst, b)
       case ContractorPaid(payable, bank, cents) =>
         x.number == None && x.createdBy == None && Pair(x.lines, payable, bank, cents)
       case PettyCash(user, cash, other, cents, cashOut) =>
         && x.number == None && x.createdBy == Some(user)
         && Pair(x.lines, if cashOut then other else cash, if cashOut then cash else other, cents)
       case Tds(user, vendor, tds, cents) =>
         x.number == None && x.createdBy == Some(user) && Pair(x.lines, vendor, tds, cents)
       case Wage(id, expense, payable, amount) =>
         && x.number == Some("J-EXP-" + Text.IntText(id)) && x.createdBy == None
         && x.lines == [Line(expense, amount, 0), Line(payable, 0, amount)]
       case Decide(_, _) => false
  }

  /**
   * Manual entries need equal totals and no empty line, petty cash a positive amount and two
   * accounts, wages a new number.
   */
  ghost predicate Appends(entries: seq<Entry>, e: Event) {
    match e
    case Manual(lines) =>
      && ExactDebits(lines) == ExactCredits(lines)
      && forall i :: 0 <= i < |lines| ==> lines[i].debit != 0.0 || lines[i].credit != 0.0
    case PettyCash(_, cash, other, cents, _) => cents > 0.0 && cash != other
    case Wage(id, _, _, _) => forall x :: x in entries ==> x.number != Some("J-EXP-" + Text.IntText(id))
    case Decide(_, _) => false
    case _ => true
  }

  lemma {:induction false} LinesAreKept(lines: seq<Request>)
    ensures KeepsLines(lines, StoredLines(lines))
  {
    if lines != [] {
      LinesAreKept(lines[..|lines| - 1]);
      var l := lines[|lines| - 1];
      Money.StoredIsNearest(l.debit, Money.Stored(l.debit));
      Money.StoredIsNearest(l.credit, Money.Stored(l.credit));
    }
  }

  lemma PairIsPosted(debit: int, credit: int, exact: real)
    ensures Pair(DebitCredit(debit, credit, Money.Stored(exact)), debit, credit, exact)
  {
    Money.StoredIsNearest(exact, Money.Stored(exact));
  }

  lemma BillIsPosted(receivable: int, revenue: int, gst: int, id: int, b: Billing.Bill)
    ensures PostsBill(BillLines(receivable, revenue, gst, Billing.Posting(id, b), Billing.GstCents(b) > 0.0),
                      receivable, revenue, gst, b)
  {
    Money.StoredIsNearest(Billing.GstCents(b), Money.Stored(Billing.GstCents(b)));
  }

  lemma {:induction false} FindIsFirst(entries: seq<Entry>, number: string)
    ensures var f := Find(entries, number);
            if f.Some? then && f.value < |entries| && entries[f.value].number == Some(number)
                            && forall j :: 0 <= j < f.value ==> entries[j].number != Some(number)
            else forall x :: x in entries ==> x.number != Some(number)
  {
    if entries != [] {
      FindIsFirst(entries[..|entries| - 1], number);
      assert entries == entries[..|entries| - 1] + [entries[|entries| - 1]];
    }
  }

  /** Each event posts what it says, or leaves no new entry. */
  lemma AppendedPosts(entries: seq<Entry>, e: Event)
    ensures Appended(entries, e).Some? <==> Appends(entries, e)
    ensures Appended(entries, e).Some? ==> Posts(e, Appended(entries, e).value)
  {
    match e
    case Manual(lines) => LinesAreKept(lines);
    case BillApproved(receivable, revenue, gst, id, b) => BillIsPosted(receivable, revenue, gst, id, b);
    case ContractorPaid(payable, bank, cents) => PairIsPosted(payable, bank, cents);
    case PettyCash(_, cash, other, cents, _) =>
      PairIsPosted(cash, other, cents);
      PairIsPosted(other, cash, cents);
    case Tds(_, vendor, tds, cents) => PairIsPosted(vendor, tds, cents);
    case Wage(id, _, _, _) => FindIsFirst(entries, WageNumber(id));
    case Decide(_, _) =>
  }

  /** Otherwise a wage rewrites the first entry of its number, and a decision the status of an entry with a creator. */
  ghost predicate Rewrites(entries: seq<Entry>, e: Event, entries': seq<Entry>) {
    match e
    case Wage(id, expense, payable, amount) =>
      exists k :: && 0 <= k < |entries| == |entries'| && entries[k].number == Some("J-EXP-" + Text.IntText(id))
                  && (forall j :: 0 <= j < k ==> entries[j].number != entries[k].number)
                  && (forall j :: 0 <= j < |entries| && j != k ==> entries'[j] == entries[j])
                  && WageRewritten(entries[k], entries'[k], expense, payable, amount)
    case Decide(i, status) =>
      entries' == if i < |entries| && entries[i].createdBy.Some? then entries[i := entries[i].(status := status)]
                  else entries
    case _ => entries' == entries
  }

  ghost predicate WageRewritten(x: Entry, y: Entry, expense: int, payable: int, amount: int) {
    && y.number == x.number && y.status == x.status && y.createdBy == x.createdBy && |y.lines| == |x.lines|
    && forall k :: 0 <= k < |x.lines| ==>
         y.lines[k] == if x.lines[k].account == expense then Line(expense, amount, 0)
                       else if x.lines[k].account == payable then Line(payable, 0, amount) else x.lines[k]
  }

  lemma ChangedRewrites(entries: seq<Entry>, e: Event)
    requires Appended(entries, e).None?
    ensures Rewrites(entries, e, Step(entries, e))
  {
    if e.Wage? {
      FindIsFirst(entries, WageNumber(e.expenseId));
      var k := Find(entries, WageNumber(e.expenseId)).value;
      assert WageRewritten(entries[k], Step(entries, e)[k], e.expense, e.payable, e.amount);
    }
  }

  // ---------------------------------------------------------------- manual journals

  function DebitResidue(lines: seq<Request>): real {
    if lines == [] then 0.0 else DebitResidue(lines[..|lines| - 1]) + Money.Residue(lines[|lines| - 1].debit)
  }

  function CreditResidue(lines: seq<Request>): real {
    if lines == [] then 0.0 else CreditResidue(lines[..|lines| - 1]) + Money.Residue(lines[|lines| - 1].credit)
  }

  lemma {:induction false} StoredNet(lines: seq<Request>)
    ensures Net(StoredLines(lines)) as real
         == ExactCredits(lines) - CreditResidue(lines) - (ExactDebits(lines) - DebitResidue(lines))
  {
    if lines != [] {
      var init, l := lines[..|lines| - 1], lines[|lines| - 1];
      StoredNet(init);
      NetAppend(StoredLines(init), Line(l.account, Money.Stored(l.debit), Money.Stored(l.credit)));
    }
  }

  /** An accepted journal balances as stored exactly when storing loses as much of its debits as of its credits. */
  lemma ManualBalancesIff(lines: seq<Request>)
    requires ManualOk(lines)
    ensures Net(StoredLines(lines)) == 0 <==> DebitResidue(lines) == CreditResidue(lines)
  {
    StoredNet(lines);
  }

  /** Nothing is lost of whole cents. */
  lemma {:induction false} WholeLinesLoseNothing(lines: seq<Request>)
    requires forall i :: 0 <= i < |lines| ==> Money.Whole(lines[i].debit) && Money.Whole(lines[i].credit)
    ensures DebitResidue(lines) == 0.0 == CreditResidue(lines)
  {
    if lines != [] {
      WholeLinesLoseNothing(lines[..|lines| - 1]);
      Money.WholeRoundsToItself(lines[|lines| - 1].debit);
      Money.WholeRoundsToItself(lines[|lines| - 1].credit);
    }
  }

  lemma RequestAppend(lines: seq<Request>, l: Request)
    ensures ExactDebits(lines + [l]) == ExactDebits(lines) + l.debit
    ensures ExactCredits(lines + [l]) == ExactCredits(lines) + l.credit
    ensures StoredLines(lines + [l])
         == StoredLines(lines) + [Line(l.account, Money.Stored(l.debit), Money.Stored(l.credit))]
  {
    assert (lines + [l])[..|lines|] == lines;
  }

  /** Two debits of half a cent against a credit of one cent are accepted, and stored out of balance. */
  lemma HalfCentsUnbalance(half: Request, cent: Request)
    requires half.debit == 0.5 && half.credit == 0.0 && cent.debit == 0.0 && cent.credit == 1.0
    ensures ManualOk([half] + [half] + [cent]) && Net(StoredLines([half] + [half] + [cent])) == -1
  {
    assert (0.5 + 0.5 as real).Floor == 1 && (1.0 + 0.5 as real).Floor == 1 && (0.0 + 0.5 as real).Floor == 0;
    var debit, credit := Line(half.account, 1, 0), Line(cent.account, 0, 1);
    assert [] + [half] == [half];
    RequestAppend([], half);
    RequestAppend([half], half);
    RequestAppend([half] + [half], cent);
    NetAppend([], debit);
    NetAppend([debit], debit);
    NetAppend([debit] + [debit], credit);
    assert [] + [debit] == [debit];
  }

  // ---------------------------------------------------------------- approved bills

  function DeductionSum(es: seq<Event>): int {
    if es == [] then 0 else (if es[0].BillApproved? then es[0].bill.deductions else 0) + DeductionSum(es[1..])
  }

  /** ps[i] is the pricing of the row that event i approves. */
  ghost predicate PricedFrom(es: seq<Event>, ps: seq<Pricing>) {
    |ps| == |es| && forall i :: 0 <= i < |es| && es[i].BillApproved? ==> PricedBy(ps[i], es[i].bill)
  }

  function GainSum(es: seq<Event>, ps: seq<Pricing>): int
    requires |ps| == |es|
  {
    if es == [] then 0 else (if es[0].BillApproved? then Gain(ps[0]) else 0) + GainSum(es[1..], ps[1..])
  }

  function LossSum(es: seq<Event>, ps: seq<Pricing>): int
    requires |ps| == |es|
  {
    if es == [] then 0 else (if es[0].BillApproved? then Loss(ps[0]) else 0) + LossSum(es[1..], ps[1..])
  }

  /** The drifts of a run that are not those of its bills. */
  function OtherDrift(entries: seq<Entry>, es: seq<Event>): int
    decreases es
  {
    if es == [] then 0
    else (if es[0].BillApproved? then 0 else DriftOf(entries, es[0])) + OtherDrift(Step(entries, es[0]), es[1..])
  }

  /** Whatever accounts are looked up, bills drift by their deductions and by what their pricings gain and lose. */
  lemma {:induction false} DriftIsDeductions(entries: seq<Entry>, es: seq<Event>, ps: seq<Pricing>)
    requires PricedFrom(es, ps)
    ensures DriftSum(entries, es) == DeductionSum(es) + GainSum(es, ps) - LossSum(es, ps) + OtherDrift(entries, es)
    decreases es
  {
    if es != [] {
      if es[0].BillApproved? {
        DriftByPricing(es[0].id, es[0].bill, ps[0]);
      }
      DriftIsDeductions(Step(entries, es[0]), es[1..], ps[1..]);
    }
  }

  // ---------------------------------------------------------------- wages through two accounts

  /** Every check-out of the run looks up the same two accounts. */
  ghost predicate WagesThrough(es: seq<Event>, expense: int, payable: int) {
    forall i :: 0 <= i < |es| && es[i].Wage? ==> es[i].expense == expense && es[i].payable == payable
  }

  predicate WageEntry(x: Entry, expense: int, payable: int) {
    |x.lines| == 2 && x.lines[0].account == expense && x.lines[1].account == payable && Net(x.lines) == 0
  }

  /** The wage journals are over those accounts and balance. */
  ghost predicate WagesStand(entries: seq<Entry>, expense: int, payable: int) {
    forall i, id: int :: 0 <= i < |entries| && entries[i].number == Some(WageNumber(id)) ==>
      WageEntry(entries[i], expense, payable)
  }

  lemma BillIsNoWage(bill: int, expenseId: int)
    ensures BillNumber(bill) != WageNumber(expenseId)
  {
    assert BillNumber(bill)[2] == 'R' && WageNumber(expenseId)[2] == 'E';
  }

  lemma WageEntryFacts(x: Entry, expense: int, payable: int, amount: int)
    requires expense != payable
    ensures WageEntry(x.(lines := DebitCredit(expense, payable, amount)), expense, payable)
    ensures WageEntry(x, expense, payable) ==> RewageAll(x.lines, expense, payable, amount)
                                               == DebitCredit(expense, payable, amount)
  {
    PairBalances(expense, payable, amount);
  }

  lemma NewEntryStands(entries: seq<Entry>, e: Event, expense: int, payable: int)
    requires WagesStand(entries, expense, payable) && Appended(entries, e).Some? && expense != payable
    requires e.Wage? ==> e.expense == expense && e.payable == payable
    ensures WagesStand(Step(entries, e), expense, payable)
  {
    var x := Appended(entries, e).value;
    forall id: int | x.number == Some(WageNumber(id))
      ensures WageEntry(x, expense, payable)
    {
      if e.BillApproved? {
        BillIsNoWage(e.id, id);
      } else {
        WageEntryFacts(x, expense, payable, e.amount);
      }
    }
  }

  /** A rewrite finds the two lines, and writes both. */
  lemma RewriteStands(entries: seq<Entry>, e: Event)
    requires e.Wage? && Appended(entries, e).None? && e.expense != e.payable
    requires WagesStand(entries, e.expense, e.payable)
    ensures WagesStand(Step(entries, e), e.expense, e.payable) && DriftOf(entries, e) == 0
    ensures AllBalanced(Step(entries, e)) <==> AllBalanced(entries)
  {
    FindFacts(entries, WageNumber(e.expenseId));
    var k := Find(entries, WageNumber(e.expenseId)).value;
    var x := entries[k];
    assert WageEntry(x, e.expense, e.payable);
    WageEntryFacts(x, e.expense, e.payable, e.amount);
    var x' := x.(lines := DebitCredit(e.expense, e.payable, e.amount));
    assert Step(entries, e) == entries[k := x'];
    OneRowReplaced(entries, k, x');
  }

  lemma OneRowReplaced(entries: seq<Entry>, k: nat, x: Entry)
    requires k < |entries| && Net(x.lines) == Net(entries[k].lines)
    ensures AllBalanced(entries[k := x]) <==> AllBalanced(entries)
  {
    if AllBalanced(entries[k := x]) {
      forall i | 0 <= i < |entries|
        ensures Net(entries[i].lines) == 0
      {
        assert Net(entries[k := x][i].lines) == 0;
      }
    }
  }

  // ---------------------------------------------------------------- drifts of requests

  /** What a request is stored out of balance by: a test on the request and on the pricing of an approved row. */
  function RequestDrift(e: Event, p: Pricing): real {
    match e
    case Manual(lines) => if ManualOk(lines) then DebitResidue(lines) - CreditResidue(lines) else 0.0
    case BillApproved(_, _, _, _, b) => (b.deductions + Gain(p) - Loss(p)) as real
    case _ => 0.0
  }

  /** One step: what it drifts by, and whether every entry stays balanced, is told by its request. */
  lemma StepByRequest(entries: seq<Entry>, e: Event, p: Pricing, expense: int, payable: int)
    requires WagesStand(entries, expense, payable) && expense != payable
    requires e.Wage? ==> e.expense == expense && e.payable == payable
    requires e.BillApproved? ==> PricedBy(p, e.bill)
    ensures WagesStand(Step(entries, e), expense, payable) && DriftOf(entries, e) as real == RequestDrift(e, p)
    ensures AllBalanced(Step(entries, e)) <==> AllBalanced(entries) && RequestDrift(e, p) == 0.0
  {
    if Appended(entries, e).Some? {
      NewEntryStands(entries, e, expense, payable);
      NewDrift(entries, e, p);
      AppendedNet(entries, e);
      OneRowAppended(entries, Appended(entries, e).value);
    } else if e.Wage? {
      RewriteStands(entries, e);
    } else if e.Decide? && Step(entries, e) != entries {
      OneRowReplaced(entries, e.entry, Step(entries, e)[e.entry]);
    }
  }

  lemma OneRowAppended(entries: seq<Entry>, x: Entry)
    ensures AllBalanced(entries + [x]) <==> AllBalanced(entries) && Net(x.lines) == 0
  {
    if AllBalanced(entries + [x]) {
      assert Net((entries + [x])[|entries|].lines) == 0;
      forall i | 0 <= i < |entries|
        ensures Net(entries[i].lines) == 0
      {
        assert Net((entries + [x])[i].lines) == 0;
      }
    }
  }

  lemma NewDrift(entries: seq<Entry>, e: Event, p: Pricing)
    requires Appended(entries, e).Some? && (e.BillApproved? ==> PricedBy(p, e.bill))
    ensures DriftOf(entries, e) as real == RequestDrift(e, p)
  {
    match e
    case Manual(lines) => StoredNet(lines);
    case BillApproved(_, _, _, id, b) => DriftByPricing(id, b, p);
    case _ =>
  }

  /** The sum of what the accepted manual journals lose of their debits beyond their credits. */
  function ManualDrift(es: seq<Event>): real {
    if es == [] then 0.0
    else
      (match es[0]
       case Manual(lines) => if ManualOk(lines) then DebitResidue(lines) - CreditResidue(lines) else 0.0
       case _ => 0.0)
      + ManualDrift(es[1..])
  }

  lemma {:induction false} OthersDriftManually(
      entries: seq<Entry>, es: seq<Event>, ps: seq<Pricing>, expense: int, payable: int)
    requires PricedFrom(es, ps) && WagesThrough(es, expense, payable) && expense != payable
    requires WagesStand(entries, expense, payable)
    ensures OtherDrift(entries, es) as real == ManualDrift(es)
    decreases es
  {
    if es != [] {
      StepByRequest(entries, es[0], ps[0], expense, payable);
      OthersDriftManually(Step(entries, es[0]), es[1..], ps[1..], expense, payable);
    }
  }

  /** An accepted journal loses as much of its debits as of its credits. */
  predicate LosesAlike(e: Event) {
    e.Manual? && ManualOk(e.lines) ==> DebitResidue(e.lines) == CreditResidue(e.lines)
  }

  lemma {:induction false} AlikeDriftsNothing(es: seq<Event>)
    requires forall e :: e in es ==> LosesAlike(e)
    ensures ManualDrift(es) == 0.0
  {
    if es != [] {
      assert LosesAlike(es[0]);
      AlikeDriftsNothing(es[1..]);
    }
  }

  /**
   * From an empty ledger, over every run whose bills are priced rows and whose check-outs
   * look up two fixed accounts: posted credit minus debit is the sum of the approved
   * deductions, plus what the pricings gain less what they lose, plus what the manual
   * journals lose. So it is the deductions alone exactly when gains and losses agree.
   */
  lemma TrialBalanceDriftsByDeductions(es: seq<Event>, ps: seq<Pricing>, expense: int, payable: int)
    requires PricedFrom(es, ps) && WagesThrough(es, expense, payable) && expense != payable
    ensures PostedNet(Run([], es)) as real
         == (DeductionSum(es) + GainSum(es, ps) - LossSum(es, ps)) as real + ManualDrift(es)
    ensures (forall e :: e in es ==> LosesAlike(e)) ==>
              (PostedNet(Run([], es)) == DeductionSum(es) <==> GainSum(es, ps) == LossSum(es, ps))
  {
    LedgerConserves([], es);
    DriftIsDeductions([], es, ps);
    OthersDriftManually([], es, ps, expense, payable);
    if forall e :: e in es ==> LosesAlike(e) {
      AlikeDriftsNothing(es);
    }
  }

  // ---------------------------------------------------------------- rewritten wages

  datatype Role = AsExpense | AsPayable | Neither

  function RoleOf(account: int, expense: int, payable: int): Role {
    if account == expense then AsExpense else if account == payable then AsPayable else Neither
  }

  /** The roles in which the two lines of a wage journal are found decide what a rewrite does. */
  predicate RewageFits(debit: Role, credit: Role, was: int, wage: int) {
    match (debit, credit)
    case (Neither, Neither) => true
    case (AsExpense, AsPayable) => true
    case (AsPayable, AsExpense) => true
    case (AsExpense, Neither) => wage == was
    case (Neither, AsPayable) => wage == was
    case (AsPayable, Neither) => wage == -was
    case (Neither, AsExpense) => wage == -was
    case (AsExpense, AsExpense) => wage == 0
    case (AsPayable, AsPayable) => wage == 0
  }

  /** Rewriting a wage journal keeps its balance exactly in these cases, whatever accounts are looked up. */
  lemma RewageKeepsNetIff(debit: int, credit: int, was: int, expense: int, payable: int, wage: int)
    ensures Net(RewageAll(DebitCredit(debit, credit, was), expense, payable, wage)) == 0
            <==> RewageFits(RoleOf(debit, expense, payable), RoleOf(credit, expense, payable), was, wage)
  {
    var lines := RewageAll(DebitCredit(debit, credit, was), expense, payable, wage);
    assert lines == [lines[0], lines[1]];
    NetOfTwo(lines[0], lines[1]);
  }

  /** So a check-out that rewrites such a journal leaves the ledger's balance alone exactly in these cases. */
  lemma RewageStepIff(entries: seq<Entry>, e: Event, k: nat, debit: int, credit: int, was: int)
    requires Inv(entries) && e.Wage? && Find(entries, WageNumber(e.expenseId)) == Some(k) && k < |entries|
    requires entries[k].lines == DebitCredit(debit, credit, was)
    ensures PostedNet(Step(entries, e)) == PostedNet(entries)
            <==> RewageFits(RoleOf(debit, e.expense, e.payable), RoleOf(credit, e.expense, e.payable), was, e.amount)
  {
    StepConserves(entries, e);
    PairBalances(debit, credit, was);
    RewageKeepsNetIff(debit, credit, was, e.expense, e.payable, e.amount);
  }

  // ---------------------------------------------------------------- every entry

  ghost predicate AllBalanced(entries: seq<Entry>) {
    forall i :: 0 <= i < |entries| ==> Net(entries[i].lines) == 0
  }

  ghost predicate RequestsBalance(es: seq<Event>, ps: seq<Pricing>)
    requires |ps| == |es|
  {
    forall i :: 0 <= i < |es| ==> RequestDrift(es[i], ps[i]) == 0.0
  }

  /**
   * Every entry balances after a run if and only if every one of its requests balances
   * as stored; rewrites and decisions never matter.
   */
  lemma {:induction false} EveryEntryBalancesIff(
      entries: seq<Entry>, es: seq<Event>, ps: seq<Pricing>, expense: int, payable: int)
    requires PricedFrom(es, ps) && WagesThrough(es, expense, payable) && expense != payable
    requires WagesStand(entries, expense, payable)
    ensures AllBalanced(Run(entries, es)) <==> AllBalanced(entries) && RequestsBalance(es, ps)
    decreases es
  {
    if es != [] {
      StepByRequest(entries, es[0], ps[0], expense, payable);
      EveryEntryBalancesIff(Step(entries, es[0]), es[1..], ps[1..], expense, payable);
      assert RequestsBalance(es, ps) <==> RequestDrift(es[0], ps[0]) == 0.0 && RequestsBalance(es[1..], ps[1..]) by {
        assert forall i :: 0 <= i < |es| - 1 ==> es[1..][i] == es[i + 1] && ps[1..][i] == ps[i + 1];
      }
    }
  }

  /** A row without deductions from whole cents, or a quotation without GST. */
  predicate CleanPricing(p: Pricing) {
    match p
    case FromFactors(q, r, d, g) => d == 0.0 && Money.Whole(Billing.Net(q, r, d)) && Money.Hundredths(g) == g
    case FromQuotation(_, g) => g == 0.0
  }

  /** A manual journal in whole cents, a clean bill, or any other posting. */
  predicate CleanRequest(e: Event, p: Pricing) {
    match e
    case Manual(lines) =>
      forall i :: 0 <= i < |lines| ==> Money.Whole(lines[i].debit) && Money.Whole(lines[i].credit)
    case BillApproved(_, _, _, _, _) => CleanPricing(p)
    case _ => true
  }

  lemma CleanBillBalances(b: Billing.Bill, p: Pricing)
    requires PricedBy(p, b) && CleanPricing(p)
    ensures b.deductions == 0 && Gain(p) == 0 && Loss(p) == 0
  {
    assert (0.0 + 0.5 as real).Floor == 0;
    if p.FromFactors? {
      WholeCentsCarryNothing(p.quantity, p.rate, p.deductions, p.gstPercent);
    }
  }

  lemma CleanRequestBalances(e: Event, p: Pricing)
    requires CleanRequest(e, p) && (e.BillApproved? ==> PricedBy(p, e.bill))
    ensures RequestDrift(e, p) == 0.0
  {
    match e
    case Manual(lines) => WholeLinesLoseNothing(lines);
    case BillApproved(_, _, _, _, b) => CleanBillBalances(b, p);
    case _ =>
  }

  /** So over every run of clean requests every entry balances, and the ledger nets to zero. */
  lemma CleanRunBalances(es: seq<Event>, ps: seq<Pricing>, expense: int, payable: int)
    requires PricedFrom(es, ps) && WagesThrough(es, expense, payable) && expense != payable
    requires forall i :: 0 <= i < |es| ==> CleanRequest(es[i], ps[i])
    ensures RequestsBalance(es, ps) && AllBalanced(Run([], es)) && PostedNet(Run([], es)) == 0
  {
    forall i | 0 <= i < |es|
      ensures RequestDrift(es[i], ps[i]) == 0.0
    {
      CleanRequestBalances(es[i], ps[i]);
    }
    EveryEntryBalancesIff([], es, ps, expense, payable);
    BalancedPosts(Run([], es), |Run([], es)|);
  }

  lemma {:induction false} BalancedPosts(entries: seq<Entry>, n: nat)
    requires n <= |entries| && AllBalanced(entries)
    ensures PostedTo(entries, n) == 0
  {
    if n > 0 {
      BalancedPosts(entries, n - 1);
    }
  }
}
