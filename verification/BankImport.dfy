/**
 * The CSV import of bank transactions of app/api/accountant.py: rows whose date, amount and
 * reference are known already are skipped.
 */
module BankImport {
  import opened Prelude
  import opened Money
  import opened Reconciliation

  /** A parsed row; amounts are exact, in cents. */
  datatype Row = Row(date: int, cents: real, ref: string, kind: string, text: string)

  /** A stored transaction with its reference, type and description. */
  datatype Stmt = Stmt(txn: Txn, ref: string, kind: string, text: string)

  /** What two rows are compared by: the exact amount of the file, the stored amount of the table. */
  datatype Key = Key(date: int, cents: real, ref: string)

  function KeyOf(r: Row): Key {
    Key(r.date, r.cents, r.ref)
  }

  function StoredKey(x: Stmt): Key {
    Key(x.txn.date, x.txn.amount as real, x.ref)
  }

  /** The keys of the account's transactions on the given dates. */
  function Existing(table: seq<Stmt>, account: int, dates: set<int>): set<Key> {
    set x | x in table && x.txn.bankAccount == account && x.txn.date in dates :: StoredKey(x)
  }

  function Dates(rows: seq<Row>): set<int> {
    set r | r in rows :: r.date
  }

  /** The rows that are added: unknown, and the first of their key in the file. */
  function Added(rows: seq<Row>, keys: set<Key>): seq<Row>
    decreases rows
  {
    if rows == [] then []
    else if KeyOf(rows[0]) in keys then Added(rows[1..], keys)
    else [rows[0]] + Added(rows[1..], keys + {KeyOf(rows[0])})
  }

  function Statement(r: Row, id: int, account: int): Stmt {
    Stmt(Txn(id, account, r.date, Stored(r.cents), false, None), r.ref, r.kind, r.text)
  }

  function Statements(rows: seq<Row>, id: int, account: int): seq<Stmt> {
    seq(|rows|, i requires 0 <= i < |rows| => Statement(rows[i], id + i, account))
  }

  function Imported(table: seq<Stmt>, account: int, rows: seq<Row>): seq<Stmt> {
    table + Statements(Added(rows, Existing(table, account, Dates(rows))), |table| + 1, account)
  }

  // ---------------------------------------------------------------- each key once

  ghost predicate AllNew(rows: seq<Row>, keys: set<Key>) {
    forall i :: 0 <= i < |rows| ==> KeyOf(rows[i]) !in keys
  }

  ghost predicate KeysDiffer(rows: seq<Row>) {
    forall i, j :: 0 <= i < j < |rows| ==> KeyOf(rows[i]) != KeyOf(rows[j])
  }

  lemma ConsOnce(r: Row, rest: seq<Row>, keys: set<Key>)
    requires KeyOf(r) !in keys && AllNew(rest, keys + {KeyOf(r)}) && KeysDiffer(rest)
    ensures AllNew([r] + rest, keys) && KeysDiffer([r] + rest)
  {
  }

  /** The added rows are new and pairwise different. */
  lemma {:induction false} AddedOnce(rows: seq<Row>, keys: set<Key>)
    ensures AllNew(Added(rows, keys), keys) && KeysDiffer(Added(rows, keys))
    decreases rows
  {
    if rows != [] {
      var k := KeyOf(rows[0]);
      if k in keys {
        AddedOnce(rows[1..], keys);
      } else {
        AddedOnce(rows[1..], keys + {k});
        ConsOnce(rows[0], Added(rows[1..], keys + {k}), keys);
      }
    }
  }

  ghost predicate HasKey(rows: seq<Row>, k: Key) {
    exists i :: 0 <= i < |rows| && KeyOf(rows[i]) == k
  }

  /** Every row of the file is known, or one of its key is added. */
  lemma {:induction false} NoKeyIsLost(rows: seq<Row>, keys: set<Key>, r: Row)
    requires r in rows && KeyOf(r) !in keys
    ensures HasKey(Added(rows, keys), KeyOf(r))
    decreases rows
  {
    var k := KeyOf(rows[0]);
    if KeyOf(r) == k {
      assert KeyOf(Added(rows, keys)[0]) == k;
    } else {
      var keys' := if k in keys then keys else keys + {k};
      NoKeyIsLost(rows[1..], keys', r);
      var i :| 0 <= i < |Added(rows[1..], keys')| && KeyOf(Added(rows[1..], keys')[i]) == KeyOf(r);
      assert Added(rows, keys)[if k in keys then i else i + 1] == Added(rows[1..], keys')[i];
    }
  }

  // ---------------------------------------------------------------- the import on the rows

  /** The account has a transaction of the same date, exact amount and reference. */
  ghost predicate Known(table: seq<Stmt>, account: int, r: Row) {
    exists x :: x in table && x.txn.bankAccount == account && x.txn.date == r.date
                && x.txn.amount as real == r.cents && x.ref == r.ref
  }

  ghost predicate SameRow(r: Row, s: Row) {
    r.date == s.date && r.cents == s.cents && r.ref == s.ref
  }

  /** Row p is unknown and the first of its date, amount and reference in the file. */
  ghost predicate IsAdded(table: seq<Stmt>, account: int, rows: seq<Row>, p: int) {
    0 <= p < |rows| && !Known(table, account, rows[p]) && forall q :: 0 <= q < p ==> !SameRow(rows[q], rows[p])
  }

  ghost predicate Rising(ps: seq<int>) {
    forall i, j :: 0 <= i < j < |ps| ==> ps[i] < ps[j]
  }

  /** The rows at `ps`, in file order, as pending transactions of the account behind the old ones. */
  ghost predicate Imports(table: seq<Stmt>, account: int, rows: seq<Row>, table': seq<Stmt>, ps: seq<int>) {
    && |table'| == |table| + |ps| && table'[..|table|] == table && Rising(ps)
    && (forall p :: p in ps <==> IsAdded(table, account, rows, p))
    && forall k :: 0 <= k < |ps| && 0 <= ps[k] < |rows| ==>
         var r, x := rows[ps[k]], table'[|table| + k];
         && x.txn.id == |table| + 1 + k && x.txn.bankAccount == account && x.txn.date == r.date
         && KeptAs(r.cents, x.txn.amount) && !x.txn.reconciled && x.txn.matched.None?
         && x.ref == r.ref && x.kind == r.kind && x.text == r.text
  }

  ghost predicate FirstNew(rows: seq<Row>, keys: set<Key>, p: int) {
    0 <= p < |rows| && KeyOf(rows[p]) !in keys && forall q :: 0 <= q < p ==> KeyOf(rows[q]) != KeyOf(rows[p])
  }

  lemma FirstNewShifts(rows: seq<Row>, keys: set<Key>, p: int)
    requires rows != []
    ensures FirstNew(rows, keys, p) <==>
              if p == 0 then KeyOf(rows[0]) !in keys else FirstNew(rows[1..], keys + {KeyOf(rows[0])}, p - 1)
  {
    assert forall q :: 0 < q < |rows| ==> rows[1..][q - 1] == rows[q];
    if p > 0 && FirstNew(rows[1..], keys + {KeyOf(rows[0])}, p - 1) {
      forall q | 0 <= q < p
        ensures KeyOf(rows[q]) != KeyOf(rows[p])
      {
        if q > 0 {
          assert KeyOf(rows[1..][q - 1]) != KeyOf(rows[1..][p - 1]);
        }
      }
    }
    if p > 0 && FirstNew(rows, keys, p) {
      forall q | 0 <= q < p - 1
        ensures KeyOf(rows[1..][q]) != KeyOf(rows[1..][p - 1])
      {
        assert KeyOf(rows[q + 1]) != KeyOf(rows[p]);
      }
    }
  }

  /** Positions in the tail as positions in the whole, with 0 before them if the first row counts. */
  function Shifted(ps: seq<int>, first: bool): seq<int> {
    (if first then [0] else []) + seq(|ps|, i requires 0 <= i < |ps| => ps[i] + 1)
  }

  lemma ShiftedHolds(ps: seq<int>, first: bool, p: int)
    ensures p in Shifted(ps, first) <==> (first && p == 0) || p - 1 in ps
  {
    var n := if first then 1 else 0;
    if p - 1 in ps {
      var i :| 0 <= i < |ps| && ps[i] == p - 1;
      assert Shifted(ps, first)[n + i] == p;
    }
    if first {
      assert Shifted(ps, first)[0] == 0;
    }
  }

  lemma ShiftedRises(ps: seq<int>, first: bool)
    requires Rising(ps) && forall i :: 0 <= i < |ps| ==> ps[i] >= 0
    ensures Rising(Shifted(ps, first))
  {
  }

  /** Where the added rows stand in the file. */
  ghost predicate StandAt(rows: seq<Row>, added: seq<Row>, ps: seq<int>) {
    |ps| == |added| && forall k :: 0 <= k < |ps| ==> 0 <= ps[k] < |rows| && added[k] == rows[ps[k]]
  }

  lemma ShiftedStands(rows: seq<Row>, added: seq<Row>, ps: seq<int>, first: bool)
    requires rows != [] && StandAt(rows[1..], added, ps)
    ensures StandAt(rows, (if first then [rows[0]] else []) + added, Shifted(ps, first))
  {
  }

  lemma {:induction false} AddedAt(rows: seq<Row>, keys: set<Key>) returns (ps: seq<int>)
    ensures Rising(ps) && StandAt(rows, Added(rows, keys), ps)
    ensures forall p :: p in ps <==> FirstNew(rows, keys, p)
    decreases rows
  {
    ps := [];
    if rows != [] {
      var k0, first := KeyOf(rows[0]), KeyOf(rows[0]) !in keys;
      assert !first ==> keys + {k0} == keys;
      var tail := AddedAt(rows[1..], keys + {k0});
      ps := Shifted(tail, first);
      ShiftedRises(tail, first);
      ShiftedStands(rows, Added(rows[1..], keys + {k0}), tail, first);
      assert Added(rows, keys) == (if first then [rows[0]] else []) + Added(rows[1..], keys + {k0});
      forall p
        ensures p in ps <==> FirstNew(rows, keys, p)
      {
        FirstNewShifts(rows, keys, p);
        ShiftedHolds(tail, first, p);
      }
    }
  }

  lemma KnownIff(table: seq<Stmt>, account: int, rows: seq<Row>, r: Row)
    requires r in rows
    ensures Known(table, account, r) <==> KeyOf(r) in Existing(table, account, Dates(rows))
  {
    if x :| x in table && x.txn.bankAccount == account && x.txn.date == r.date
            && x.txn.amount as real == r.cents && x.ref == r.ref {
      assert StoredKey(x) == KeyOf(r) && x.txn.date in Dates(rows);
    }
  }

  /** The import adds exactly the rows that are unknown and first in the file, in file order. */
  lemma ImportedHolds(table: seq<Stmt>, account: int, rows: seq<Row>) returns (ps: seq<int>)
    ensures Imports(table, account, rows, Imported(table, account, rows), ps)
  {
    var keys := Existing(table, account, Dates(rows));
    ps := AddedAt(rows, keys);
    forall r: Row
      ensures KeptAs(r.cents, Stored(r.cents))
    {
      StoredIsNearest(r.cents, Stored(r.cents));
    }
    forall p
      ensures FirstNew(rows, keys, p) <==> IsAdded(table, account, rows, p)
    {
      if 0 <= p < |rows| {
        KnownIff(table, account, rows, rows[p]);
        assert forall q :: 0 <= q < p ==> (SameRow(rows[q], rows[p]) <==> KeyOf(rows[q]) == KeyOf(rows[p]));
      }
    }
  }

  /** Importing changes nothing that was there, and adds only pending transactions. */
  lemma ImportKeepsFlags(table: seq<Stmt>, account: int, rows: seq<Row>)
    requires forall x :: x in table ==> (x.txn.matched.Some? <==> x.txn.reconciled)
    ensures var table' := Imported(table, account, rows);
            && table <= table'
            && (forall x :: x in table' ==> (x.txn.matched.Some? <==> x.txn.reconciled))
            && (forall x :: x in table' && x !in table ==> Pending(x.txn, account))
  {
  }

  // ---------------------------------------------------------------- importing again

  ghost predicate WholeCents(rows: seq<Row>) {
    forall i :: 0 <= i < |rows| ==> Whole(rows[i].cents)
  }

  /** A row of whole cents, once imported, is known. */
  lemma WholeRowIsKnown(table: seq<Stmt>, account: int, rows: seq<Row>, r: Row)
    requires r in rows && Whole(r.cents)
    ensures KeyOf(r) in Existing(Imported(table, account, rows), account, Dates(rows))
  {
    var keys := Existing(table, account, Dates(rows));
    var new' := Added(rows, keys);
    var table' := Imported(table, account, rows);
    WholeRoundsToItself(r.cents);
    if KeyOf(r) in keys {
      var x :| x in table && x.txn.bankAccount == account && x.txn.date in Dates(rows) && StoredKey(x) == KeyOf(r);
      assert x in table';
    } else {
      NoKeyIsLost(rows, keys, r);
      var i :| 0 <= i < |new'| && KeyOf(new'[i]) == KeyOf(r);
      var x := Statement(new'[i], |table| + 1 + i, account);
      assert table'[|table| + i] == x;
      assert x in table' && StoredKey(x) == KeyOf(r) && r.date in Dates(rows);
    }
  }

  lemma {:induction false} AllKnownAddsNothing(rows: seq<Row>, keys: set<Key>)
    requires forall r :: r in rows ==> KeyOf(r) in keys
    ensures Added(rows, keys) == []
    decreases rows
  {
    if rows != [] {
      AllKnownAddsNothing(rows[1..], keys);
    }
  }

  /**
   * Importing the same file again adds nothing exactly when its amounts are in whole cents:
   * finer amounts are stored rounded, so they are not recognised and are added once more.
   */
  lemma SecondImportAddsNothingIff(table: seq<Stmt>, account: int, rows: seq<Row>)
    ensures var table' := Imported(table, account, rows);
            Imported(table', account, rows) == table' <==> WholeCents(rows)
  {
    var table' := Imported(table, account, rows);
    var keys := Existing(table', account, Dates(rows));
    if WholeCents(rows) {
      forall r | r in rows
        ensures KeyOf(r) in keys
      {
        WholeRowIsKnown(table, account, rows, r);
      }
      AllKnownAddsNothing(rows, keys);
      assert Imported(table', account, rows) == table';
    } else {
      var i :| 0 <= i < |rows| && !Whole(rows[i].cents);
      NotAStoredKey(table', account, rows, rows[i]);
      NoKeyIsLost(rows, keys, rows[i]);
      assert |Imported(table', account, rows)| > |table'|;
    }
  }

  lemma NotAStoredKey(table: seq<Stmt>, account: int, rows: seq<Row>, r: Row)
    requires !Whole(r.cents)
    ensures KeyOf(r) !in Existing(table, account, Dates(rows))
  {
  }

  /** One more row of the file: known, or added. */
  lemma AddedStep(rows: seq<Row>, i: nat, keys: set<Key>)
    requires i < |rows|
    ensures Added(rows[i..], keys)
         == if KeyOf(rows[i]) in keys then Added(rows[i + 1..], keys)
            else [rows[i]] + Added(rows[i + 1..], keys + {KeyOf(rows[i])})
  {
    assert rows[i..][0] == rows[i] && rows[i..][1..] == rows[i + 1..];
  }

  lemma StatementsAppend(table: seq<Stmt>, done: seq<Row>, r: Row, account: int)
    ensures var more := table + Statements(done, |table| + 1, account);
            more + [Statement(r, |more| + 1, account)] == table + Statements(done + [r], |table| + 1, account)
  {
    assert Statements(done + [r], |table| + 1, account)
        == Statements(done, |table| + 1, account) + [Statement(r, |table| + 1 + |done|, account)];
  }

  /** The import before row i: `done` are the rows added so far, the rest follows from the keys seen. */
  ghost predicate Halfway(table: seq<Stmt>, account: int, rows: seq<Row>, i: nat, existing: set<Key>, done: seq<Row>,
                          table': seq<Stmt>)
  {
    && i <= |rows| && table' == table + Statements(done, |table| + 1, account)
    && Added(rows, Existing(table, account, Dates(rows))) == done + Added(rows[i..], existing)
  }

  lemma HalfwayStart(table: seq<Stmt>, account: int, rows: seq<Row>)
    ensures Halfway(table, account, rows, 0, Existing(table, account, Dates(rows)), [], table)
  {
    assert rows[0..] == rows && table + [] == table;
  }

  lemma HalfwayStep(table: seq<Stmt>, account: int, rows: seq<Row>, i: nat, existing: set<Key>, done: seq<Row>,
                    table': seq<Stmt>)
    requires Halfway(table, account, rows, i, existing, done, table') && i < |rows|
    ensures KeyOf(rows[i]) in existing ==> Halfway(table, account, rows, i + 1, existing, done, table')
    ensures KeyOf(rows[i]) !in existing ==>
              Halfway(table, account, rows, i + 1, existing + {KeyOf(rows[i])}, done + [rows[i]],
                      table' + [Statement(rows[i], |table'| + 1, account)])
  {
    AddedStep(rows, i, existing);
    StatementsAppend(table, done, rows[i], account);
    var rest := Added(rows[i + 1..], existing + {KeyOf(rows[i])});
    assert done + ([rows[i]] + rest) == (done + [rows[i]]) + rest;
  }

  lemma HalfwayEnd(table: seq<Stmt>, account: int, rows: seq<Row>, existing: set<Key>, done: seq<Row>,
                   table': seq<Stmt>)
    requires Halfway(table, account, rows, |rows|, existing, done, table')
    ensures table' == Imported(table, account, rows) && |table'| == |table| + |done|
  {
    assert rows[|rows|..] == [] && done + [] == done;
  }

  // ---------------------------------------------------------------- the handler

  class BankTable {
    var table: seq<Stmt>

    constructor ()
      ensures table == []
    {
      table := [];
    }

    method ImportBankTransactions(account: int, rows: seq<Row>) returns (added: nat, skipped: nat)
      modifies this
      ensures table == Imported(old(table), account, rows)
      ensures exists ps :: Imports(old(table), account, rows, table, ps)
      ensures added == |table| - |old(table)| && added + skipped == |rows|
    {
      var existing := Existing(table, account, Dates(rows));
      ghost var done: seq<Row> := [];
      HalfwayStart(table, account, rows);
      added, skipped := 0, 0;
      for i := 0 to |rows|
        invariant Halfway(old(table), account, rows, i, existing, done, table)
        invariant added == |done| && added + skipped == i
      {
        var r := rows[i];
        HalfwayStep(old(table), account, rows, i, existing, done, table);
        var key := KeyOf(r);
        if key in existing {
          skipped := skipped + 1;
        } else {
          existing := existing + {key};
          table := table + [Statement(r, |table| + 1, account)];
          done := done + [r];
          added := added + 1;
        }
      }
      HalfwayEnd(old(table), account, rows, existing, done, table);
      ghost var ps := ImportedHolds(old(table), account, rows);
    }
  }
}
