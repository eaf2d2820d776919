/** The trial balance and the balance sheet of app/api/accountant.py over the posted lines. */
module Reports {
  import opened Prelude
  import opened Ledger
  import opened Money
  import Billing
  import BillingRuns

  datatype AccountType = Asset | Liability | Income | Expense | Equity

  datatype Account = Account(company: int, kind: AccountType)

  type Chart = map<int, Account>

  /** The lines of one entry, if it is posted. */
  function LinesOf(x: Entry): seq<Line> {
    if x.status.Posted? then x.lines else []
  }

  /** The lines of the posted entries. */
  function PostedLines(entries: seq<Entry>): seq<Line> {
    if entries == [] then []
    else PostedLines(entries[..|entries| - 1]) + LinesOf(entries[|entries| - 1])
  }

  predicate Owned(chart: Chart, company: int, l: Line) {
    l.account in chart && chart[l.account].company == company
  }

  /** Debit minus credit of the company's lines on accounts of one type. */
  function TypeSum(chart: Chart, company: int, kind: AccountType, lines: seq<Line>): int {
    if lines == [] then 0
    else
      var l := lines[|lines| - 1];
      TypeSum(chart, company, kind, lines[..|lines| - 1]) +
      (if Owned(chart, company, l) && chart[l.account].kind == kind then l.debit - l.credit else 0)
  }

  /** Credit minus debit of the company's lines. */
  function CompanyNet(chart: Chart, company: int, lines: seq<Line>): int {
    if lines == [] then 0
    else
      var l := lines[|lines| - 1];
      CompanyNet(chart, company, lines[..|lines| - 1]) + (if Owned(chart, company, l) then l.credit - l.debit else 0)
  }

  /** The five types partition the accounts. */
  lemma {:induction false} TypesPartition(chart: Chart, company: int, lines: seq<Line>)
    ensures TypeSum(chart, company, Asset, lines) + TypeSum(chart, company, Liability, lines)
            + TypeSum(chart, company, Equity, lines) + TypeSum(chart, company, Income, lines)
            + TypeSum(chart, company, Expense, lines) == -CompanyNet(chart, company, lines)
  {
    if lines != [] {
      TypesPartition(chart, company, lines[..|lines| - 1]);
    }
  }

  // ---------------------------------------------------------------- grouping by account

  /** Debit minus credit on one account. */
  function Balance(account: int, lines: seq<Line>): int {
    if lines == [] then 0
    else
      var l := lines[|lines| - 1];
      Balance(account, lines[..|lines| - 1]) + (if l.account == account then l.debit - l.credit else 0)
  }

  /** The sum of the grouped rows of one type. */
  function RowSum(chart: Chart, company: int, kind: AccountType, accounts: seq<int>, lines: seq<Line>): int {
    if accounts == [] then 0
    else
      var a := accounts[|accounts| - 1];
      RowSum(chart, company, kind, accounts[..|accounts| - 1], lines) +
      (if a in chart && chart[a].company == company && chart[a].kind == kind then Balance(a, lines) else 0)
  }

  lemma {:induction false} RowSumOneLine(
      chart: Chart, company: int, kind: AccountType, accounts: seq<int>, lines: seq<Line>, l: Line)
    requires Distinct(accounts)
    ensures RowSum(chart, company, kind, accounts, lines + [l]) == RowSum(chart, company, kind, accounts, lines)
            + (if l.account in accounts && Owned(chart, company, l) && chart[l.account].kind == kind
               then l.debit - l.credit else 0)
  {
    assert (lines + [l])[..|lines|] == lines;
    if accounts != [] {
      var init, a := accounts[..|accounts| - 1], accounts[|accounts| - 1];
      assert accounts == init + [a];
      assert Distinct(init) && a !in init;
      RowSumOneLine(chart, company, kind, init, lines, l);
    }
  }

  lemma {:induction false} RowSumNoLines(chart: Chart, company: int, kind: AccountType, accounts: seq<int>)
    ensures RowSum(chart, company, kind, accounts, []) == 0
  {
    if accounts != [] {
      RowSumNoLines(chart, company, kind, accounts[..|accounts| - 1]);
    }
  }

  /** The grouped rows list every account that has lines, once. */
  ghost predicate Grouped(accounts: seq<int>, lines: seq<Line>) {
    Distinct(accounts) && forall l :: l in lines ==> l.account in accounts
  }

  /** Summing grouped balances is summing lines. */
  lemma {:induction false} RowsAreLines(
      chart: Chart, company: int, kind: AccountType, accounts: seq<int>, lines: seq<Line>)
    requires Grouped(accounts, lines)
    ensures RowSum(chart, company, kind, accounts, lines) == TypeSum(chart, company, kind, lines)
  {
    if lines == [] {
      RowSumNoLines(chart, company, kind, accounts);
    } else {
      var init, l := lines[..|lines| - 1], lines[|lines| - 1];
      assert lines == init + [l];
      RowsAreLines(chart, company, kind, accounts, init);
      RowSumOneLine(chart, company, kind, accounts, init, l);
    }
  }

  // ---------------------------------------------------------------- the balance sheet

  datatype Sheet = Sheet(assets: int, liabilities: int, equity: int, profit: int, isBalanced: bool)

  method SumType(chart: Chart, company: int, kind: AccountType, lines: seq<Line>) returns (sum: int)
    ensures sum == TypeSum(chart, company, kind, lines)
  {
    sum := 0;
    for i := 0 to |lines|
      invariant sum == TypeSum(chart, company, kind, lines[..i])
    {
      assert lines[..i + 1][..i] == lines[..i];
      if Owned(chart, company, lines[i]) && chart[lines[i].account].kind == kind {
        sum := sum + lines[i].debit - lines[i].credit;
      }
    }
    assert lines[..|lines|] == lines;
  }

  method BalanceOf(account: int, lines: seq<Line>) returns (sum: int)
    ensures sum == Balance(account, lines)
  {
    sum := 0;
    for i := 0 to |lines|
      invariant sum == Balance(account, lines[..i])
    {
      assert lines[..i + 1][..i] == lines[..i];
      if lines[i].account == account {
        sum := sum + lines[i].debit - lines[i].credit;
      }
    }
    assert lines[..|lines|] == lines;
  }

  /**
   * `dated` are the posted lines up to the as-of date, `lines` all posted lines:
   * the rows honour the date, the profit does not.
   */
  method BalanceSheet(chart: Chart, company: int, accounts: seq<int>, dated: seq<Line>, lines: seq<Line>)
    returns (sheet: Sheet)
    requires Grouped(accounts, dated)
    ensures sheet.profit == -TypeSum(chart, company, Income, lines) - TypeSum(chart, company, Expense, lines)
    ensures sheet.assets == TypeSum(chart, company, Asset, dated)
    ensures sheet.liabilities == TypeSum(chart, company, Liability, dated)
    ensures sheet.equity == TypeSum(chart, company, Equity, dated) + sheet.profit
    ensures sheet.isBalanced <==> sheet.assets == sheet.liabilities + sheet.equity
  {
    var assets, liabilities, equity := 0, 0, 0;
    for i := 0 to |accounts|
      invariant assets == RowSum(chart, company, Asset, accounts[..i], dated)
      invariant liabilities == RowSum(chart, company, Liability, accounts[..i], dated)
      invariant equity == RowSum(chart, company, Equity, accounts[..i], dated)
    {
      assert accounts[..i + 1][..i] == accounts[..i];
      var a := accounts[i];
      if a in chart && chart[a].company == company {
        var balance := BalanceOf(a, dated);
        match chart[a].kind {
          case Asset => assets := assets + balance;
          case Liability => liabilities := liabilities + balance;
          case Equity => equity := equity + balance;
          case _ =>
        }
      }
    }
    assert accounts[..|accounts|] == accounts;
    RowsAreLines(chart, company, Asset, accounts, dated);
    RowsAreLines(chart, company, Liability, accounts, dated);
    RowsAreLines(chart, company, Equity, accounts, dated);
    var income := SumType(chart, company, Income, lines);
    var expense := SumType(chart, company, Expense, lines);
    var profit := -income - expense;
    equity := equity + profit;
    sheet := Sheet(assets, liabilities, equity, profit, assets == liabilities + equity);
  }

  /**
   * With no as-of date and balanced postings, assets + liabilities + equity before
   * retained earnings equals profit, all in debit-minus-credit; so the reported
   * flag holds exactly when liabilities and that equity net to zero.
   */
  lemma AccountingEquation(chart: Chart, company: int, lines: seq<Line>, sheet: Sheet)
    requires CompanyNet(chart, company, lines) == 0
    requires sheet.profit == -TypeSum(chart, company, Income, lines) - TypeSum(chart, company, Expense, lines)
    requires sheet.assets == TypeSum(chart, company, Asset, lines)
    requires sheet.liabilities == TypeSum(chart, company, Liability, lines)
    requires sheet.equity == TypeSum(chart, company, Equity, lines) + sheet.profit
    requires sheet.isBalanced <==> sheet.assets == sheet.liabilities + sheet.equity
    ensures sheet.assets + sheet.liabilities + (sheet.equity - sheet.profit) == sheet.profit
    ensures sheet.isBalanced <==> sheet.liabilities + (sheet.equity - sheet.profit) == 0
  {
    TypesPartition(chart, company, lines);
  }

  // ---------------------------------------------------------------- the trial balance of one company

  /** All lines of the entry are on accounts of one company. */
  ghost predicate WithinCompany(chart: Chart, x: Entry, company: int) {
    forall l :: l in x.lines ==> Owned(chart, company, l)
  }

  ghost predicate Elsewhere(chart: Chart, x: Entry, company: int) {
    forall l :: l in x.lines ==> !Owned(chart, company, l)
  }

  /** No entry straddles companies, as seen from this one. */
  ghost predicate NoStraddling(chart: Chart, entries: seq<Entry>, company: int) {
    forall x :: x in entries ==> WithinCompany(chart, x, company) || Elsewhere(chart, x, company)
  }

  lemma {:induction false} CompanyNetConcat(chart: Chart, company: int, xs: seq<Line>, ys: seq<Line>)
    ensures CompanyNet(chart, company, xs + ys) == CompanyNet(chart, company, xs) + CompanyNet(chart, company, ys)
  {
    if ys == [] {
      assert xs + ys == xs;
    } else {
      assert (xs + ys)[..|xs + ys| - 1] == xs + ys[..|ys| - 1];
      CompanyNetConcat(chart, company, xs, ys[..|ys| - 1]);
    }
  }

  lemma {:induction false} CompanyNetOfEntry(chart: Chart, company: int, lines: seq<Line>)
    ensures (forall l :: l in lines ==> Owned(chart, company, l)) ==> CompanyNet(chart, company, lines) == Net(lines)
    ensures (forall l :: l in lines ==> !Owned(chart, company, l)) ==> CompanyNet(chart, company, lines) == 0
  {
    if lines != [] {
      var init, last := lines[..|lines| - 1], lines[|lines| - 1];
      assert last in lines && forall l :: l in init ==> l in lines;
      CompanyNetOfEntry(chart, company, init);
    }
  }

  predicate Touches(chart: Chart, company: int, x: Entry) {
    exists i :: 0 <= i < |x.lines| && Owned(chart, company, x.lines[i])
  }

  /** What one entry that does not straddle adds to the company's net. */
  lemma CompanyNetOfOne(chart: Chart, company: int, x: Entry)
    requires WithinCompany(chart, x, company) || Elsewhere(chart, x, company)
    ensures CompanyNet(chart, company, LinesOf(x))
         == if Touches(chart, company, x) && x.status.Posted? then Net(x.lines) else 0
  {
    CompanyNetOfEntry(chart, company, x.lines);
    if !Touches(chart, company, x) {
      assert forall l :: l in x.lines ==> !Owned(chart, company, l);
    }
  }

  /** The entries of one company. */
  function Mine(chart: Chart, company: int, entries: seq<Entry>): seq<Entry> {
    if entries == [] then []
    else
      var x := entries[|entries| - 1];
      Mine(chart, company, entries[..|entries| - 1]) +
      (if Touches(chart, company, x) then [x] else [])
  }

  lemma {:induction false} PostedAppend(entries: seq<Entry>, x: Entry)
    ensures PostedNet(entries + [x]) == PostedNet(entries) + (if x.status.Posted? then Net(x.lines) else 0)
  {
    assert (entries + [x])[..|entries|] == entries == entries[..|entries|];
    PostedPrefix(entries + [x], entries, |entries|);
  }

  /** The company's trial balance nets to what its own posted entries net to. */
  lemma {:induction false} CompanyTrialBalance(chart: Chart, company: int, entries: seq<Entry>)
    requires NoStraddling(chart, entries, company)
    ensures CompanyNet(chart, company, PostedLines(entries)) == PostedNet(Mine(chart, company, entries))
  {
    if entries != [] {
      var init, x := entries[..|entries| - 1], entries[|entries| - 1];
      CompanyTrialBalance(chart, company, init);
      CompanyNetConcat(chart, company, PostedLines(init), LinesOf(x));
      assert x in entries;
      CompanyNetOfOne(chart, company, x);
      if Touches(chart, company, x) {
        PostedAppend(Mine(chart, company, init), x);
      } else {
        assert Mine(chart, company, init) + [] == Mine(chart, company, init);
      }
    }
  }

  lemma {:induction false} MineIsFrom(chart: Chart, company: int, entries: seq<Entry>)
    requires AllBalanced(entries)
    ensures AllBalanced(Mine(chart, company, entries))
  {
    if entries != [] {
      MineIsFrom(chart, company, entries[..|entries| - 1]);
    }
  }

  /**
   * When every request balances as stored, every company's trial balance is even after the
   * run, provided its entries do not straddle companies.
   */
  lemma EveryCompanyBalances(
      chart: Chart, company: int, es: seq<Event>, ps: seq<BillingRuns.Pricing>, expense: int, payable: int)
    requires PricedFrom(es, ps) && WagesThrough(es, expense, payable) && expense != payable
    requires RequestsBalance(es, ps) && NoStraddling(chart, Run([], es), company)
    ensures CompanyNet(chart, company, PostedLines(Run([], es))) == 0
  {
    EveryEntryBalancesIff([], es, ps, expense, payable);
    var entries := Run([], es);
    CompanyTrialBalance(chart, company, entries);
    MineIsFrom(chart, company, entries);
    var mine := Mine(chart, company, entries);
    BalancedPosts(mine, |mine|);
  }

  /** Which every run of clean requests does. */
  lemma CleanCompaniesBalance(
      chart: Chart, company: int, es: seq<Event>, ps: seq<BillingRuns.Pricing>, expense: int, payable: int)
    requires PricedFrom(es, ps) && WagesThrough(es, expense, payable) && expense != payable
    requires forall i :: 0 <= i < |es| ==> CleanRequest(es[i], ps[i])
    requires NoStraddling(chart, Run([], es), company)
    ensures CompanyNet(chart, company, PostedLines(Run([], es))) == 0
  {
    CleanRunBalances(es, ps, expense, payable);
    EveryCompanyBalances(chart, company, es, ps, expense, payable);
  }

  // ---------------------------------------------------------------- what a posting moves

  /** A debit-credit pair raises one balance and lowers the other by its amount, and moves no third. */
  lemma PairMovesBalances(lines: seq<Line>, debit: int, credit: int, amount: int, account: int)
    ensures Balance(account, lines + DebitCredit(debit, credit, amount))
         == Balance(account, lines) + (if account == debit then amount else 0)
            - (if account == credit then amount else 0)
  {
    var one := lines + [Line(debit, amount, 0)];
    var two := one + [Line(credit, 0, amount)];
    assert two == lines + DebitCredit(debit, credit, amount);
    assert two[..|one|] == one && one[..|lines|] == lines;
  }

  /** Cash paid out lowers the cash balance and raises the category, cash taken in does the reverse. */
  lemma PettyCashMovesCash(entries: seq<Entry>, e: Event, account: int)
    requires e.PettyCash? && Appended(entries, e).Some?
    ensures var change := if e.cashOut then -Stored(e.cents) else Stored(e.cents);
            Balance(account, PostedLines(Step(entries, e)))
            == Balance(account, PostedLines(entries))
               + (if account == e.cash then change else if account == e.other then -change else 0)
  {
    var x := Appended(entries, e).value;
    assert (entries + [x])[..|entries|] == entries;
    if e.cashOut {
      PairMovesBalances(PostedLines(entries), e.other, e.cash, Stored(e.cents), account);
    } else {
      PairMovesBalances(PostedLines(entries), e.cash, e.other, Stored(e.cents), account);
    }
  }

  /** Paying a contractor lowers what is owed and the bank by the same amount; withheld tax moves from vendor to tax. */
  lemma PaymentsMoveLiabilities(entries: seq<Entry>, e: Event, account: int)
    requires e.ContractorPaid? || e.Tds?
    ensures var debit, credit := if e.Tds? then e.vendor else e.payable, if e.Tds? then e.tds else e.bank;
            Balance(account, PostedLines(Step(entries, e)))
            == Balance(account, PostedLines(entries))
               + (if account == debit then Stored(e.cents) else 0) - (if account == credit then Stored(e.cents) else 0)
  {
    var x := Appended(entries, e).value;
    assert (entries + [x])[..|entries|] == entries;
    PairMovesBalances(PostedLines(entries), if e.Tds? then e.vendor else e.payable,
                      if e.Tds? then e.tds else e.bank, Stored(e.cents), account);
  }

  lemma {:induction false} BalanceConcat(account: int, xs: seq<Line>, ys: seq<Line>)
    ensures Balance(account, xs + ys) == Balance(account, xs) + Balance(account, ys)
  {
    if ys == [] {
      assert xs + ys == xs;
    } else {
      assert (xs + ys)[..|xs + ys| - 1] == xs + ys[..|ys| - 1];
      BalanceConcat(account, xs, ys[..|ys| - 1]);
    }
  }

  lemma OneMoreEntry(entries: seq<Entry>, x: Entry, account: int)
    ensures Balance(account, PostedLines(entries + [x]))
         == Balance(account, PostedLines(entries)) + (if x.status == Posted then Balance(account, x.lines) else 0)
  {
    assert (entries + [x])[..|entries|] == entries;
    BalanceConcat(account, PostedLines(entries), LinesOf(x));
  }

  /**
   * An approved bill raises the receivable by its total and lowers revenue by its gross and the
   * GST account by the tax on its net, if there is any, and moves no other balance.
   */
  lemma BillMovesBalances(entries: seq<Entry>, e: Event, account: int) returns (tax: int)
    requires e.BillApproved?
    ensures if GstOf(e.bill) > 0.0 then KeptAs(GstOf(e.bill), tax) else tax == 0
    ensures Balance(account, PostedLines(Step(entries, e)))
         == Balance(account, PostedLines(entries)) + (if account == e.receivable then e.bill.total else 0)
            - (if account == e.revenue then e.bill.gross else 0) - (if account == e.gst then tax else 0)
  {
    var x := Appended(entries, e).value;
    AppendedPosts(entries, e);
    OneMoreEntry(entries, x, account);
    BillBalance(x.lines, e.receivable, e.revenue, e.gst, e.bill, account);
    tax := if |x.lines| == 3 then x.lines[2].credit else 0;
  }

  /** The exact tax on a stored net. */
  ghost function GstOf(b: Billing.Bill): real {
    b.net as real * b.gstPercent / 100.0
  }

  lemma BillBalance(lines: seq<Line>, receivable: int, revenue: int, gst: int, b: Billing.Bill, account: int)
    requires PostsBill(lines, receivable, revenue, gst, b)
    ensures Balance(account, lines) == (if account == receivable then b.total else 0)
                                       - (if account == revenue then b.gross else 0)
                                       - (if |lines| == 3 && account == gst then lines[2].credit else 0)
  {
    assert lines == (if |lines| == 3 then [lines[0]] + [lines[1]] + [lines[2]] else [lines[0]] + [lines[1]]);
    BalanceOfOne(account, lines[0]);
    BalanceConcat(account, [lines[0]], [lines[1]]);
    BalanceOfOne(account, lines[1]);
    if |lines| == 3 {
      BalanceConcat(account, [lines[0]] + [lines[1]], [lines[2]]);
      BalanceOfOne(account, lines[2]);
    }
  }

  lemma BalanceOfOne(account: int, l: Line)
    ensures Balance(account, [l]) == if l.account == account then l.debit - l.credit else 0
  {
    assert [l][..0] == [];
  }

  /** What one more line adds to each sum. */
  lemma OneMoreLine(chart: Chart, company: int, kind: AccountType, account: int, lines: seq<Line>, l: Line)
    ensures var owned := l.account in chart && chart[l.account].company == company;
            && TypeSum(chart, company, kind, lines + [l]) == TypeSum(chart, company, kind, lines)
                 + (if owned && chart[l.account].kind == kind then l.debit - l.credit else 0)
            && CompanyNet(chart, company, lines + [l])
                 == CompanyNet(chart, company, lines) + (if owned then l.credit - l.debit else 0)
            && Balance(account, lines + [l])
                 == Balance(account, lines) + (if l.account == account then l.debit - l.credit else 0)
    ensures TypeSum(chart, company, kind, []) == CompanyNet(chart, company, []) == Balance(account, []) == 0
  {
    assert (lines + [l])[..|lines|] == lines;
  }

  // ---------------------------------------------------------------- the trial balance report

  datatype Side = DebitSide | CreditSide

  function AmountOf(l: Line, side: Side): int {
    if side.DebitSide? then l.debit else l.credit
  }

  function SideOn(account: int, lines: seq<Line>, side: Side): int {
    if lines == [] then 0
    else
      var l := lines[|lines| - 1];
      SideOn(account, lines[..|lines| - 1], side) + (if l.account == account then AmountOf(l, side) else 0)
  }

  /** One column of the company's posted lines. */
  function CompanySide(chart: Chart, company: int, lines: seq<Line>, side: Side): int {
    if lines == [] then 0
    else
      var l := lines[|lines| - 1];
      CompanySide(chart, company, lines[..|lines| - 1], side)
      + (if Owned(chart, company, l) then AmountOf(l, side) else 0)
  }

  datatype TrialRow = TrialRow(account: int, debit: int, credit: int)

  predicate OwnedAccount(chart: Chart, company: int, a: int) {
    a in chart && chart[a].company == company
  }

  /** One row for each of the company's accounts that has lines. */
  function TrialRows(chart: Chart, company: int, accounts: seq<int>, lines: seq<Line>): seq<TrialRow> {
    if accounts == [] then []
    else
      var a := accounts[|accounts| - 1];
      TrialRows(chart, company, accounts[..|accounts| - 1], lines) +
      (if OwnedAccount(chart, company, a)
       then [TrialRow(a, SideOn(a, lines, DebitSide), SideOn(a, lines, CreditSide))] else [])
  }

  function RowSide(chart: Chart, company: int, accounts: seq<int>, lines: seq<Line>, side: Side): int {
    if accounts == [] then 0
    else
      var a := accounts[|accounts| - 1];
      RowSide(chart, company, accounts[..|accounts| - 1], lines, side) +
      (if OwnedAccount(chart, company, a) then SideOn(a, lines, side) else 0)
  }

  /** The rows: one for each owned account of the grouping, in its order, with both columns of that account. */
  ghost predicate RowPerAccount(rows: seq<TrialRow>, chart: Chart, company: int, accounts: seq<int>, lines: seq<Line>,
                                js: seq<int>)
  {
    && |js| == |rows| && (forall i, j :: 0 <= i < j < |js| ==> js[i] < js[j])
    && (forall j :: j in js <==> 0 <= j < |accounts| && accounts[j] in chart && chart[accounts[j]].company == company)
    && forall k :: 0 <= k < |js| && 0 <= js[k] < |accounts| ==>
         && rows[k].account == accounts[js[k]] && rows[k].debit == SideOn(accounts[js[k]], lines, DebitSide)
         && rows[k].credit == SideOn(accounts[js[k]], lines, CreditSide)
  }

  lemma RowsOneMore(rows: seq<TrialRow>, chart: Chart, company: int, accounts: seq<int>, lines: seq<Line>,
                    js: seq<int>, a: int)
    requires RowPerAccount(rows, chart, company, accounts, lines, js)
    ensures OwnedAccount(chart, company, a) ==>
              RowPerAccount(rows + [TrialRow(a, SideOn(a, lines, DebitSide), SideOn(a, lines, CreditSide))],
                            chart, company, accounts + [a], lines, js + [|accounts|])
    ensures !OwnedAccount(chart, company, a) ==> RowPerAccount(rows, chart, company, accounts + [a], lines, js)
  {
    assert forall k :: 0 <= k < |js| ==> js[k] in js;
    assert forall j :: j in js + [|accounts|] <==> j in js || j == |accounts|;
  }

  lemma {:induction false} RowsOfAccounts(chart: Chart, company: int, accounts: seq<int>, lines: seq<Line>)
    returns (js: seq<int>)
    ensures RowPerAccount(TrialRows(chart, company, accounts, lines), chart, company, accounts, lines, js)
  {
    js := [];
    if accounts != [] {
      var init, a := accounts[..|accounts| - 1], accounts[|accounts| - 1];
      js := RowsOfAccounts(chart, company, init, lines);
      RowsOneMore(TrialRows(chart, company, init, lines), chart, company, init, lines, js, a);
      assert accounts == init + [a];
      assert TrialRows(chart, company, init, lines) + [] == TrialRows(chart, company, init, lines);
      js := if OwnedAccount(chart, company, a) then js + [|init|] else js;
    }
  }

  /** What one more line adds to each column. */
  lemma OneMoreInColumn(chart: Chart, company: int, account: int, lines: seq<Line>, l: Line, side: Side)
    ensures var amount := if side == DebitSide then l.debit else l.credit;
            && SideOn(account, lines + [l], side)
                 == SideOn(account, lines, side) + (if l.account == account then amount else 0)
            && CompanySide(chart, company, lines + [l], side) == CompanySide(chart, company, lines, side)
                 + (if l.account in chart && chart[l.account].company == company then amount else 0)
    ensures SideOn(account, [], side) == CompanySide(chart, company, [], side) == 0
  {
    assert (lines + [l])[..|lines|] == lines;
  }

  /** A posted entry's lines count, a rejected one's do not. */
  lemma OneMoreEntryLines(entries: seq<Entry>, x: Entry)
    ensures PostedLines(entries + [x]) == if x.status == Posted then PostedLines(entries) + x.lines
                                          else PostedLines(entries)
    ensures PostedLines([]) == []
  {
    assert (entries + [x])[..|entries|] == entries;
  }

  lemma {:induction false} RowSideOneLine(
      chart: Chart, company: int, accounts: seq<int>, lines: seq<Line>, l: Line, side: Side)
    requires Distinct(accounts)
    ensures RowSide(chart, company, accounts, lines + [l], side) == RowSide(chart, company, accounts, lines, side)
            + (if l.account in accounts && Owned(chart, company, l) then AmountOf(l, side) else 0)
  {
    assert (lines + [l])[..|lines|] == lines;
    if accounts != [] {
      var init, a := accounts[..|accounts| - 1], accounts[|accounts| - 1];
      assert accounts == init + [a];
      assert Distinct(init) && a !in init;
      RowSideOneLine(chart, company, init, lines, l, side);
    }
  }

  lemma {:induction false} RowSideNoLines(chart: Chart, company: int, accounts: seq<int>, side: Side)
    ensures RowSide(chart, company, accounts, [], side) == 0
  {
    if accounts != [] {
      RowSideNoLines(chart, company, accounts[..|accounts| - 1], side);
    }
  }

  /** The rows' column totals are the totals over the lines. */
  lemma {:induction false} RowsTotalTheLines(
      chart: Chart, company: int, accounts: seq<int>, lines: seq<Line>, side: Side)
    requires Grouped(accounts, lines)
    ensures RowSide(chart, company, accounts, lines, side) == CompanySide(chart, company, lines, side)
  {
    if lines == [] {
      RowSideNoLines(chart, company, accounts, side);
    } else {
      var init, l := lines[..|lines| - 1], lines[|lines| - 1];
      assert lines == init + [l];
      RowsTotalTheLines(chart, company, accounts, init, side);
      RowSideOneLine(chart, company, accounts, init, l, side);
    }
  }

  /** The two columns agree exactly when the company's lines net to zero. */
  lemma {:induction false} ColumnsDifferByNet(chart: Chart, company: int, lines: seq<Line>)
    ensures CompanySide(chart, company, lines, CreditSide) - CompanySide(chart, company, lines, DebitSide)
         == CompanyNet(chart, company, lines)
  {
    if lines != [] {
      ColumnsDifferByNet(chart, company, lines[..|lines| - 1]);
    }
  }

  /** trial_balance: a row per account and the totals of both columns, off by the company's net. */
  method TrialBalance(chart: Chart, company: int, accounts: seq<int>, lines: seq<Line>)
    returns (rows: seq<TrialRow>, debit: int, credit: int)
    requires Grouped(accounts, lines)
    ensures rows == TrialRows(chart, company, accounts, lines)
    ensures debit == CompanySide(chart, company, lines, DebitSide)
    ensures credit == CompanySide(chart, company, lines, CreditSide)
    ensures credit - debit == CompanyNet(chart, company, lines)
    ensures exists js :: RowPerAccount(rows, chart, company, accounts, lines, js)
  {
    ghost var js := RowsOfAccounts(chart, company, accounts, lines);
    rows, debit, credit := [], 0, 0;
    for i := 0 to |accounts|
      invariant rows == TrialRows(chart, company, accounts[..i], lines)
      invariant debit == RowSide(chart, company, accounts[..i], lines, DebitSide)
      invariant credit == RowSide(chart, company, accounts[..i], lines, CreditSide)
    {
      assert accounts[..i + 1][..i] == accounts[..i];
      var a := accounts[i];
      if OwnedAccount(chart, company, a) {
        var d, c := SideOn(a, lines, DebitSide), SideOn(a, lines, CreditSide);
        debit, credit := debit + d, credit + c;
        rows := rows + [TrialRow(a, d, c)];
      }
    }
    assert accounts[..|accounts|] == accounts;
    RowsTotalTheLines(chart, company, accounts, lines, DebitSide);
    RowsTotalTheLines(chart, company, accounts, lines, CreditSide);
    ColumnsDifferByNet(chart, company, lines);
  }
}
