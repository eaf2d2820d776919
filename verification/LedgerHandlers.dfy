/** The posting handlers as code that adds and rewrites journal rows in place. */
module LedgerHandlers {
  import opened Prelude
  import opened Ledger
  import opened Money
  import Billing

  /** Overwrite the lines found on the two wage accounts. */
  method RewriteLines(lines: seq<Line>, expense: int, payable: int, wage: int) returns (out: seq<Line>)
    ensures out == RewageAll(lines, expense, payable, wage)
    ensures |out| == |lines| && forall k :: 0 <= k < |lines| ==>
              out[k] == if lines[k].account == expense then Line(expense, wage, 0)
                        else if lines[k].account == payable then Line(payable, 0, wage) else lines[k]
  {
    out := lines;
    for i := 0 to |lines|
      invariant |out| == |lines|
      invariant forall k :: 0 <= k < |out| ==>
                  out[k] == if k < i then Rewaged(lines[k], expense, payable, wage) else lines[k]
    {
      var line := out[i];
      if line.account == expense {
        out := out[i := line.(debit := wage, credit := 0)];
      } else if line.account == payable {
        out := out[i := line.(debit := 0, credit := wage)];
      }
    }
  }

  /** Exact total debit and credit of a payload. */
  method Totals(lines: seq<Request>) returns (debit: real, credit: real)
    ensures debit == ExactDebits(lines) && credit == ExactCredits(lines)
  {
    debit, credit := 0.0, 0.0;
    for i := 0 to |lines|
      invariant debit == ExactDebits(lines[..i]) && credit == ExactCredits(lines[..i])
    {
      assert lines[..i + 1][..i] == lines[..i];
      debit, credit := debit + lines[i].debit, credit + lines[i].credit;
    }
    assert lines[..|lines|] == lines;
  }

  /** One more entry, as the event posts it. */
  ghost predicate Grows(before: seq<Entry>, after: seq<Entry>, e: Event) {
    |after| == |before| + 1 && after[..|before|] == before && Posts(e, after[|before|])
  }

  lemma StepGrows(entries: seq<Entry>, e: Event)
    ensures Appended(entries, e).Some? <==> Appends(entries, e)
    ensures if Appends(entries, e) then Grows(entries, Step(entries, e), e)
            else Rewrites(entries, e, Step(entries, e))
  {
    AppendedPosts(entries, e);
    if Appended(entries, e).None? {
      ChangedRewrites(entries, e);
    }
  }

  class JournalBook {
    var entries: seq<Entry>

    constructor ()
      ensures entries == []
    {
      entries := [];
    }

    /**
     * create_journal_entry: the exact totals must agree and no line may be empty on both
     * sides; the lines are stored one by one, so the entry balances only when rounding
     * loses as much of the debits as of the credits.
     */
    method CreateJournalEntry(payload: seq<Request>) returns (ok: bool)
      modifies this
      ensures entries == Step(old(entries), Manual(payload))
      ensures ok <==> ExactDebits(payload) == ExactCredits(payload)
                      && forall i :: 0 <= i < |payload| ==> payload[i].debit != 0.0 || payload[i].credit != 0.0
      ensures if ok then Grows(old(entries), entries, Manual(payload)) else entries == old(entries)
      ensures ok ==> (Net(entries[|entries| - 1].lines) == 0 <==> DebitResidue(payload) == CreditResidue(payload))
    {
      StepGrows(entries, Manual(payload));
      var debit, credit := Totals(payload);
      if debit != credit {
        return false;
      }
      var lines := [];
      for i := 0 to |payload|
        invariant lines == StoredLines(payload[..i])
        invariant forall k :: 0 <= k < i ==> !(payload[k].debit == 0.0 && payload[k].credit == 0.0)
      {
        var line := payload[i];
        if line.debit == 0.0 && line.credit == 0.0 {
          return false;
        }
        assert payload[..i + 1][..i] == payload[..i];
        lines := lines + [Line(line.account, Stored(line.debit), Stored(line.credit))];
      }
      assert payload[..|payload|] == payload;
      ManualBalancesIff(payload);
      entries := entries + [Entry(None, Posted, None, lines)];
      ok := true;
    }

    /** The journal of approve_bill: a GST line only when there is GST. */
    method PostBill(receivable: int, revenue: int, gst: int, id: int, bill: Billing.Bill)
      modifies this
      ensures entries == Step(old(entries), BillApproved(receivable, revenue, gst, id, bill))
      ensures Grows(old(entries), entries, BillApproved(receivable, revenue, gst, id, bill))
    {
      StepGrows(entries, BillApproved(receivable, revenue, gst, id, bill));
      var posting := Billing.Posting(id, bill);
      var lines := [Line(receivable, posting.receivable, 0)];
      lines := lines + [Line(revenue, 0, posting.revenue)];
      if Billing.GstCents(bill) > 0.0 {
        lines := lines + [Line(gst, 0, posting.gst)];
      }
      assert lines == BillLines(receivable, revenue, gst, posting, Billing.GstCents(bill) > 0.0);
      entries := entries + [Entry(Some(BillNumber(id)), Posted, None, lines)];
    }

    /** create_petty_cash_transaction. */
    method PostPettyCash(user: int, cash: int, other: int, cents: real, cashOut: bool) returns (ok: bool)
      modifies this
      ensures ok == (cents > 0.0 && cash != other)
      ensures entries == Step(old(entries), PettyCash(user, cash, other, cents, cashOut))
      ensures ok ==> Net(entries[|entries| - 1].lines) == 0
      ensures if ok then Grows(old(entries), entries, PettyCash(user, cash, other, cents, cashOut))
              else entries == old(entries)
    {
      StepGrows(entries, PettyCash(user, cash, other, cents, cashOut));
      if cents <= 0.0 || other == cash {
        return false;
      }
      var amount := Stored(cents);
      PairBalances(other, cash, amount);
      PairBalances(cash, other, amount);
      var lines := [];
      if cashOut {
        lines := lines + [Line(other, amount, 0)];
        lines := lines + [Line(cash, 0, amount)];
        assert lines == DebitCredit(other, cash, amount);
      } else {
        lines := lines + [Line(cash, amount, 0)];
        lines := lines + [Line(other, 0, amount)];
        assert lines == DebitCredit(cash, other, amount);
      }
      entries := entries + [Entry(None, Posted, Some(user), lines)];
      ok := true;
    }

    /** The wage journal of check_out: found by number and rewritten, or posted anew. */
    method PostWage(expenseId: int, expense: int, payable: int, wage: int)
      modifies this
      ensures entries == Step(old(entries), Wage(expenseId, expense, payable, wage))
      ensures var e := Wage(expenseId, expense, payable, wage);
              if Appends(old(entries), e) then Grows(old(entries), entries, e) else Rewrites(old(entries), e, entries)
    {
      StepGrows(entries, Wage(expenseId, expense, payable, wage));
      FindFacts(entries, WageNumber(expenseId));
      var existing := Find(entries, WageNumber(expenseId));
      if existing.None? {
        entries := entries + [Entry(Some(WageNumber(expenseId)), Posted, None, DebitCredit(expense, payable, wage))];
      } else {
        var je := entries[existing.value];
        var lines := RewriteLines(je.lines, expense, payable, wage);
        entries := entries[existing.value := je.(lines := lines)];
      }
    }

    /** Approving or rejecting a journal through the approval workflow, which needs its creator. */
    method DecideJournal(entry: nat, status: EntryStatus) returns (ok: bool)
      modifies this
      ensures ok == (entry < |old(entries)| && old(entries)[entry].createdBy.Some?)
      ensures entries == if ok then old(entries)[entry := old(entries)[entry].(status := status)] else old(entries)
    {
      if entry >= |entries| || entries[entry].createdBy.None? {
        return false;
      }
      entries := entries[entry := entries[entry].(status := status)];
      ok := true;
    }
  }
}
