/**
 * The automatic bank reconciliation of app/api/accountant.py: a greedy matcher
 * over an index of journal entries by amount, from which matched entries are
 * removed while it runs. Dates are day numbers, amounts are cents.
 */
module Reconciliation {
  import opened Prelude

  datatype Line = Line(account: int, debit: int, credit: int)

  datatype Entry = Entry(id: int, date: Option<int>, lines: seq<Line>)

  datatype Txn = Txn(id: int, bankAccount: int, date: int, amount: int, reconciled: bool, matched: Option<int>)

  predicate Touches(lines: seq<Line>, account: int) {
    lines != [] && (lines[0].account == account || Touches(lines[1..], account))
  }

  /** The amount of the first line on the account: its debit when positive, else its credit. */
  function BankAmount(lines: seq<Line>, account: int): int {
    if lines == [] then 0
    else if lines[0].account == account then
      if lines[0].debit > 0 then lines[0].debit else lines[0].credit
    else BankAmount(lines[1..], account)
  }

  predicate DateOk(t: Txn, e: Entry) {
    e.date.Some? ==> Abs(t.date - e.date.value) <= 3
  }

  predicate Pending(t: Txn, account: int) {
    t.bankAccount == account && !t.reconciled
  }

  /** A pending transaction may be matched to this entry. */
  predicate Wants(t: Txn, e: Entry, account: int) {
    Pending(t, account) && BankAmount(e.lines, account) == t.amount && DateOk(t, e)
  }

  // ---------------------------------------------------------------- the candidate pool

  function LinesOn(lines: seq<Line>, account: int): nat {
    if lines == [] then 0
    else (if lines[0].account == account then 1 else 0) + LinesOn(lines[1..], account)
  }

  function Copies(e: Entry, n: nat): seq<Entry> {
    if n == 0 then [] else [e] + Copies(e, n - 1)
  }

  /** The join of entries with their lines on the account: one row per such line. */
  function Joined(entries: seq<Entry>, account: int): seq<Entry> {
    if entries == [] then []
    else Copies(entries[0], LinesOn(entries[0].lines, account)) + Joined(entries[1..], account)
  }

  function MatchedIds(txns: seq<Txn>): set<int> {
    set t | t in txns && t.matched.Some? :: t.matched.value
  }

  /** The rows not matched so far, in row order. */
  function Pool(rows: seq<Entry>, account: int, matched: set<int>): seq<Entry> {
    if rows == [] then []
    else
      var last := rows[|rows| - 1];
      Pool(rows[..|rows| - 1], account, matched) +
      (if last.id !in matched && Touches(last.lines, account) then [last] else [])
  }

  lemma {:induction false} InPool(rows: seq<Entry>, account: int, matched: set<int>, e: Entry)
    ensures e in Pool(rows, account, matched) <==> e in rows && e.id !in matched && Touches(e.lines, account)
  {
    if rows != [] {
      var n := |rows| - 1;
      InPool(rows[..n], account, matched, e);
      assert rows == rows[..n] + [rows[n]];
    }
  }

  ghost predicate DistinctIds(es: seq<Entry>) {
    forall i, j :: 0 <= i < j < |es| ==> es[i].id != es[j].id
  }

  lemma CopiesAreTheEntry(e: Entry, n: nat)
    ensures |Copies(e, n)| == n && forall i :: 0 <= i < n ==> Copies(e, n)[i] == e
  {
  }

  lemma {:induction false} JoinedComesFrom(entries: seq<Entry>, account: int, e: Entry)
    requires e in Joined(entries, account)
    ensures e in entries
  {
    var k := LinesOn(entries[0].lines, account);
    CopiesAreTheEntry(entries[0], k);
    if e !in Copies(entries[0], k) {
      JoinedComesFrom(entries[1..], account, e);
    }
  }

  lemma DistinctIdsOfConcat(xs: seq<Entry>, ys: seq<Entry>)
    ensures DistinctIds(xs + ys) <==>
              DistinctIds(xs) && DistinctIds(ys) && forall x, y :: x in xs && y in ys ==> x.id != y.id
  {
    var zs := xs + ys;
    if DistinctIds(zs) {
      forall i, j | 0 <= i < j < |xs|
        ensures xs[i].id != xs[j].id
      {
        assert zs[i] == xs[i] && zs[j] == xs[j];
      }
      forall i, j | 0 <= i < j < |ys|
        ensures ys[i].id != ys[j].id
      {
        assert zs[|xs| + i] == ys[i] && zs[|xs| + j] == ys[j];
      }
      forall x, y | x in xs && y in ys
        ensures x.id != y.id
      {
        var i :| 0 <= i < |xs| && xs[i] == x;
        var j :| 0 <= j < |ys| && ys[j] == y;
        assert zs[i].id != zs[|xs| + j].id;
      }
    } else {
      var i, j :| 0 <= i < j < |zs| && zs[i].id == zs[j].id;
      assert zs[i] == (if i < |xs| then xs[i] else ys[i - |xs|]);
      assert zs[j] == (if j < |xs| then xs[j] else ys[j - |xs|]);
    }
  }

  /** No two lines of the account. */
  ghost predicate OneLineAtMost(lines: seq<Line>, account: int) {
    forall i, j :: 0 <= i < j < |lines| ==> !(lines[i].account == account && lines[j].account == account)
  }

  lemma {:induction false} LinesOnCounts(lines: seq<Line>, account: int)
    ensures LinesOn(lines, account) == 0 <==> forall i :: 0 <= i < |lines| ==> lines[i].account != account
    ensures LinesOn(lines, account) <= 1 <==> OneLineAtMost(lines, account)
  {
    if lines != [] {
      var tail := lines[1..];
      LinesOnCounts(tail, account);
      assert forall i :: 0 <= i < |tail| ==> tail[i] == lines[i + 1];
      if OneLineAtMost(tail, account) && !OneLineAtMost(lines, account) {
        var i, j :| 0 <= i < j < |lines| && lines[i].account == account && lines[j].account == account;
        assert i == 0 && tail[j - 1] == lines[j];
      }
      if !OneLineAtMost(tail, account) {
        var i, j :| 0 <= i < j < |tail| && tail[i].account == account && tail[j].account == account;
        assert lines[i + 1] == tail[i] && lines[j + 1] == tail[j];
      }
      if lines[0].account == account && LinesOn(tail, account) > 0 {
        var j :| 0 <= j < |tail| && tail[j].account == account;
        assert lines[j + 1] == tail[j];
      }
    }
  }

  /** An entry is joined as often as it has lines on the account. */
  lemma {:induction false} JoinedPerLine(entries: seq<Entry>, account: int, e: Entry)
    requires DistinctIds(entries)
    ensures multiset(Joined(entries, account))[e] == if e in entries then LinesOn(e.lines, account) else 0
  {
    if entries != [] {
      var k, tail := LinesOn(entries[0].lines, account), entries[1..];
      assert entries == [entries[0]] + tail;
      DistinctIdsOfConcat([entries[0]], tail);
      JoinedPerLine(tail, account, e);
      CopiesCount(entries[0], k, e);
    }
  }

  lemma {:induction false} CopiesCount(e: Entry, n: nat, f: Entry)
    ensures multiset(Copies(e, n))[f] == if f == e then n else 0
  {
    if n > 0 {
      CopiesCount(e, n - 1, f);
    }
  }

  /** The join repeats no entry exactly when every entry has at most one line on the account. */
  lemma {:induction false} JoinedDistinctIff(entries: seq<Entry>, account: int)
    requires DistinctIds(entries)
    ensures DistinctIds(Joined(entries, account)) <==>
            forall e :: e in entries ==> OneLineAtMost(e.lines, account)
  {
    if entries != [] {
      var k := LinesOn(entries[0].lines, account);
      LinesOnCounts(entries[0].lines, account);
      var head, tail := Copies(entries[0], k), Joined(entries[1..], account);
      assert entries == [entries[0]] + entries[1..];
      DistinctIdsOfConcat([entries[0]], entries[1..]);
      JoinedDistinctIff(entries[1..], account);
      CopiesAreTheEntry(entries[0], k);
      DistinctIdsOfConcat(head, tail);
      assert DistinctIds(head) <==> k <= 1 by {
        if k >= 2 {
          assert head[0].id == head[1].id;
        }
      }
      forall x, y | x in head && y in tail
        ensures x.id != y.id
      {
        JoinedComesFrom(entries[1..], account, y);
      }
    }
  }

  // ---------------------------------------------------------------- the plain scan

  /** The first position below n that is unused and wanted, or n. */
  function First(t: Txn, pool: seq<Entry>, used: set<nat>, account: int, n: nat): (k: nat)
    requires n <= |pool|
    ensures k <= n
    ensures k < n ==> k !in used && Wants(t, pool[k], account)
    ensures forall j :: 0 <= j < k ==> j in used || !Wants(t, pool[j], account)
  {
    if n == 0 then 0
    else
      var k := First(t, pool, used, account, n - 1);
      if k < n - 1 then k
      else if n - 1 !in used && Wants(t, pool[n - 1], account) then n - 1
      else n
  }

  /** Each transaction in turn takes the first compatible unused entry in pool order. */
  function Scan(txns: seq<Txn>, pool: seq<Entry>, used: set<nat>, account: int): (picks: seq<Option<nat>>)
    ensures |picks| == |txns|
    ensures forall i :: 0 <= i < |picks| && picks[i].Some? ==>
              picks[i].value < |pool| && Wants(txns[i], pool[picks[i].value], account)
  {
    if txns == [] then []
    else
      var k := First(txns[0], pool, used, account, |pool|);
      if k < |pool| then [Some(k)] + Scan(txns[1..], pool, used + {k}, account)
      else [None] + Scan(txns[1..], pool, used, account)
  }

  function Count(picks: seq<Option<nat>>): nat {
    if picks == [] then 0 else (if picks[0].Some? then 1 else 0) + Count(picks[1..])
  }

  function Stamp(txns: seq<Txn>, picks: seq<Option<nat>>, pool: seq<Entry>): seq<Txn>
    requires |picks| == |txns|
    requires forall i :: 0 <= i < |picks| && picks[i].Some? ==> picks[i].value < |pool|
  {
    seq(|txns|, i requires 0 <= i < |txns| =>
      if picks[i].Some? then txns[i].(reconciled := true, matched := Some(pool[picks[i].value].id)) else txns[i])
  }

  /** The transactions after one automatic run over the joined rows. */
  function Reconciled(txns: seq<Txn>, rows: seq<Entry>, account: int): seq<Txn> {
    var pool := Pool(rows, account, MatchedIds(txns));
    Stamp(txns, Scan(txns, pool, {}, account), pool)
  }

  // ---------------------------------------------------------------- what the scan guarantees

  /** The positions picked are outside `used` and pairwise different. */
  ghost predicate Apart(picks: seq<Option<nat>>, used: set<nat>) {
    && (forall i :: 0 <= i < |picks| && picks[i].Some? ==> picks[i].value !in used)
    && (forall i, j :: 0 <= i < j < |picks| && picks[i].Some? && picks[j].Some? ==> picks[i].value != picks[j].value)
  }

  lemma ConsApart(pick: Option<nat>, tail: seq<Option<nat>>, used: set<nat>)
    requires pick.Some? ==> pick.value !in used && Apart(tail, used + {pick.value})
    requires pick.None? ==> Apart(tail, used)
    ensures Apart([pick] + tail, used)
  {
  }

  /** No pool position is taken twice, and none that was used before. */
  lemma {:induction false} PicksAreApart(txns: seq<Txn>, pool: seq<Entry>, used: set<nat>, account: int)
    ensures Apart(Scan(txns, pool, used, account), used)
  {
    if txns != [] {
      var k := First(txns[0], pool, used, account, |pool|);
      var used' := if k < |pool| then used + {k} else used;
      PicksAreApart(txns[1..], pool, used', account);
      ConsApart(if k < |pool| then Some(k) else None, Scan(txns[1..], pool, used', account), used);
    }
  }

  lemma InCons<T>(x: T, tail: seq<T>, y: T)
    ensures y in [x] + tail <==> y == x || y in tail
  {
  }

  /** An unmatched transaction finds every entry it wants taken, before it or by an earlier one. */
  lemma {:induction false} ScanIsMaximal(txns: seq<Txn>, pool: seq<Entry>, used: set<nat>, account: int, i: nat, j: nat)
    requires i < |txns| && j < |pool| && Wants(txns[i], pool[j], account)
    requires Scan(txns, pool, used, account)[i].None?
    ensures j in used || Some(j) in Scan(txns, pool, used, account)
  {
    if i > 0 {
      var k := First(txns[0], pool, used, account, |pool|);
      var pick, used' := if k < |pool| then Some(k) else None, if k < |pool| then used + {k} else used;
      var tail := Scan(txns[1..], pool, used', account);
      assert Scan(txns, pool, used, account) == [pick] + tail;
      ScanIsMaximal(txns[1..], pool, used', account, i - 1, j);
      InCons(pick, tail, Some(j));
    }
  }

  /** What a transaction newly matched by the run holds. */
  lemma NewMatch(txns: seq<Txn>, rows: seq<Entry>, account: int, pool: seq<Entry>, i: nat) returns (k: nat)
    requires pool == Pool(rows, account, MatchedIds(txns))
    requires i < |txns| && Reconciled(txns, rows, account)[i] != txns[i]
    ensures k < |pool| && Scan(txns, pool, {}, account)[i] == Some(k)
    ensures Wants(txns[i], pool[k], account) && pool[k].id !in MatchedIds(txns)
    ensures Reconciled(txns, rows, account)[i].matched == Some(pool[k].id)
  {
    k := Scan(txns, pool, {}, account)[i].value;
    InPool(rows, account, MatchedIds(txns), pool[k]);
  }

  /** With one row per entry, the run matches no entry twice and none matched earlier. */
  lemma MatchesAreOneToOne(txns: seq<Txn>, rows: seq<Entry>, account: int, i: nat, j: nat)
    requires DistinctIds(Pool(rows, account, MatchedIds(txns)))
    requires i < j < |txns|
    requires var txns' := Reconciled(txns, rows, account); txns'[i] != txns[i] && txns'[j] != txns[j]
    ensures var txns' := Reconciled(txns, rows, account);
            && txns'[i].matched.Some? && txns'[i].matched.value !in MatchedIds(txns)
            && txns'[j].matched.Some? && txns'[j].matched.value !in MatchedIds(txns)
            && txns'[i].matched != txns'[j].matched
  {
    var pool := Pool(rows, account, MatchedIds(txns));
    var k := NewMatch(txns, rows, account, pool, i);
    var m := NewMatch(txns, rows, account, pool, j);
    PicksAreApart(txns, pool, {}, account);
    assert k != m;
    assert if k < m then pool[k].id != pool[m].id else pool[m].id != pool[k].id;
  }

  // ---------------------------------------------------------------- within a factor of two

  /** A one-to-one assignment of transactions (by position) to pool entries they want. */
  ghost predicate IsMatching(m: set<(nat, nat)>, txns: seq<Txn>, pool: seq<Entry>, account: int) {
    && (forall p :: p in m ==> p.0 < |txns| && p.1 < |pool| && Wants(txns[p.0], pool[p.1], account))
    && (forall p, q :: p in m && q in m && p != q ==> p.0 != q.0 && p.1 != q.1)
  }

  lemma {:induction false} LeftBound(m: set<(nat, nat)>, left: set<nat>)
    requires forall p :: p in m ==> p.0 in left
    requires forall p, q :: p in m && q in m && p != q ==> p.0 != q.0
    ensures |m| <= |left|
  {
    if m != {} {
      var p :| p in m;
      LeftBound(m - {p}, left - {p.0});
    }
  }

  lemma {:induction false} RightBound(m: set<(nat, nat)>, right: set<nat>)
    requires forall p :: p in m ==> p.1 in right
    requires forall p, q :: p in m && q in m && p != q ==> p.1 != q.1
    ensures |m| <= |right|
  {
    if m != {} {
      var p :| p in m;
      RightBound(m - {p}, right - {p.1});
    }
  }

  function Takers(picks: seq<Option<nat>>): set<nat> {
    set i | 0 <= i < |picks| && picks[i].Some? :: i
  }

  function Taken(picks: seq<Option<nat>>): set<nat> {
    set i | 0 <= i < |picks| && picks[i].Some? :: picks[i].value
  }

  lemma TakersLast(picks: seq<Option<nat>>)
    requires picks != []
    ensures var n := |picks| - 1;
            && Takers(picks) == Takers(picks[..n]) + (if picks[n].Some? then {n} else {})
            && Taken(picks) == Taken(picks[..n]) + (if picks[n].Some? then {picks[n].value} else {})
            && n !in Takers(picks[..n])
  {
  }

  lemma {:induction false} CountBoundsBoth(picks: seq<Option<nat>>)
    ensures |Takers(picks)| == Count(picks)
    ensures |Taken(picks)| <= Count(picks)
  {
    if picks == [] {
      assert Takers(picks) == {} == Taken(picks);
    } else {
      CountBoundsBoth(picks[..|picks| - 1]);
      CountLast(picks);
      TakersLast(picks);
    }
  }

  lemma {:induction false} CountLast(picks: seq<Option<nat>>)
    requires picks != []
    ensures Count(picks) == Count(picks[..|picks| - 1]) + (if picks[|picks| - 1].Some? then 1 else 0)
  {
    if |picks| > 1 {
      CountLast(picks[1..]);
      assert picks[1..][..|picks| - 2] == picks[..|picks| - 1][1..];
    }
  }

  /** The pairs of a matching whose transaction the greedy run matched too. */
  function Shared(m: set<(nat, nat)>, picks: seq<Option<nat>>): set<(nat, nat)> {
    set p | p in m && p.0 in Takers(picks)
  }

  lemma SharedAreFew(m: set<(nat, nat)>, txns: seq<Txn>, pool: seq<Entry>, account: int, picks: seq<Option<nat>>)
    requires IsMatching(m, txns, pool, account)
    ensures |Shared(m, picks)| <= |Takers(picks)|
  {
    LeftBound(Shared(m, picks), Takers(picks));
  }

  lemma OthersAreFew(m: set<(nat, nat)>, txns: seq<Txn>, pool: seq<Entry>, account: int, picks: seq<Option<nat>>)
    requires IsMatching(m, txns, pool, account) && picks == Scan(txns, pool, {}, account)
    ensures |m - Shared(m, picks)| <= |Taken(picks)|
  {
    forall p | p in m - Shared(m, picks)
      ensures p.1 in Taken(picks)
    {
      ScanIsMaximal(txns, pool, {}, account, p.0, p.1);
    }
    RightBound(m - Shared(m, picks), Taken(picks));
  }

  /** No one-to-one assignment matches more than twice as many as the greedy run. */
  lemma GreedyIsWithinTwo(txns: seq<Txn>, pool: seq<Entry>, account: int, m: set<(nat, nat)>)
    requires IsMatching(m, txns, pool, account)
    ensures |m| <= 2 * Count(Scan(txns, pool, {}, account))
  {
    var picks := Scan(txns, pool, {}, account);
    SharedAreFew(m, txns, pool, account, picks);
    OthersAreFew(m, txns, pool, account, picks);
    CountBoundsBoth(picks);
    assert Shared(m, picks) <= m;
  }

  /**
   * The factor is reached: when the first transaction wants both entries and the second only
   * the one that the first takes, crossing them over matches twice as many.
   */
  lemma FactorTwoIsReached(t0: Txn, t1: Txn, e0: Entry, e1: Entry, account: int)
    requires Wants(t0, e0, account) && Wants(t0, e1, account) && Wants(t1, e0, account) && !Wants(t1, e1, account)
    ensures var txns, pool := [t0] + [t1], [e0] + [e1];
            && IsMatching({(0, 1), (1, 0)}, txns, pool, account)
            && |{(0, 1), (1, 0)}| == 2 * Count(Scan(txns, pool, {}, account))
  {
    var txns, pool := [t0] + [t1], [e0] + [e1];
    assert First(t0, pool, {}, account, 2) == 0;
    assert txns[1..] == [t1];
    assert First(t1, pool, {} + {0}, account, 2) == 2;
    assert Scan([t1], pool, {} + {0}, account) == [None] + [];
    var picks: seq<Option<nat>> := [Some(0)] + [None];
    assert Scan(txns, pool, {}, account) == picks;
    assert picks[1..] == [None] && Count([None]) == 0;
    assert {(0, 1), (1, 0)} == {(0, 1)} + {(1, 0)};
  }

  // ---------------------------------------------------------------- rows that repeat

  ghost predicate NoEntryTwice(txns: seq<Txn>, pool: seq<Entry>, account: int) {
    var picks := Scan(txns, pool, {}, account);
    forall i, j :: 0 <= i < j < |picks| && picks[i].Some? && picks[j].Some? ==>
      pool[picks[i].value].id != pool[picks[j].value].id
  }

  /** Pending transactions that all want `e`. */
  function Clones(e: Entry, account: int, n: nat): seq<Txn> {
    seq(n, i => Txn(i, account, if e.date.Some? then e.date.value else 0, BankAmount(e.lines, account), false, None))
  }

  lemma {:induction false} BelowIsFew(s: set<nat>, n: nat)
    requires forall i :: i in s ==> i < n
    ensures |s| <= n
  {
    if n > 0 {
      BelowIsFew(s - {n - 1}, n - 1);
    } else {
      assert s == {};
    }
  }

  /** More transactions than free pool positions: one of them goes without. */
  lemma {:induction false} SomeoneGoesWithout(txns: seq<Txn>, pool: seq<Entry>, used: set<nat>, account: int)
    requires forall j :: j in used ==> j < |pool|
    requires |txns| + |used| > |pool|
    ensures None in Scan(txns, pool, used, account)
  {
    if txns == [] {
      BelowIsFew(used, |pool|);
    } else {
      var picks := Scan(txns, pool, used, account);
      var k := First(txns[0], pool, used, account, |pool|);
      if k < |pool| {
        SomeoneGoesWithout(txns[1..], pool, used + {k}, account);
        assert picks == [Some(k)] + Scan(txns[1..], pool, used + {k}, account);
      } else {
        assert picks[0] == None;
      }
    }
  }

  lemma {:induction false} ScanOfConcat(xs: seq<Txn>, ys: seq<Txn>, pool: seq<Entry>, used: set<nat>, account: int)
    returns (used': set<nat>)
    requires forall j :: j in used ==> j < |pool|
    ensures forall j :: j in used' ==> j < |pool|
    ensures Scan(xs + ys, pool, used, account) == Scan(xs, pool, used, account) + Scan(ys, pool, used', account)
  {
    if xs == [] {
      assert xs + ys == ys;
      used' := used;
    } else {
      var k := First(xs[0], pool, used, account, |pool|);
      assert (xs + ys)[1..] == xs[1..] + ys && (xs + ys)[0] == xs[0];
      used' := ScanOfConcat(xs[1..], ys, pool, if k < |pool| then used + {k} else used, account);
    }
  }

  /** After any transactions, enough new ones of one kind exhaust a row and its repetition. */
  lemma ClonesMatchTwice(txns: seq<Txn>, pool: seq<Entry>, account: int, a: nat, b: nat)
    requires a < b < |pool| && pool[a] == pool[b]
    ensures !NoEntryTwice(txns + Clones(pool[a], account, |pool| + 1), pool, account)
  {
    var all := txns + Clones(pool[a], account, |pool| + 1);
    var i := SomeCloneGoesWithout(txns, pool, account, a);
    WantedArePicked(all, pool, account, i, a, b);
  }

  lemma SomeCloneGoesWithout(txns: seq<Txn>, pool: seq<Entry>, account: int, a: nat) returns (i: nat)
    requires a < |pool|
    ensures var all := txns + Clones(pool[a], account, |pool| + 1);
            i < |all| && Scan(all, pool, {}, account)[i] == None && Wants(all[i], pool[a], account)
  {
    var clones := Clones(pool[a], account, |pool| + 1);
    var used' := ScanOfConcat(txns, clones, pool, {}, account);
    SomeoneGoesWithoutEarly(clones, pool, used', account);
    var j :| 0 <= j < |clones| && Scan(clones, pool, used', account)[j] == None;
    CloneWants(pool[a], account, |pool| + 1, j);
    i := |txns| + j;
    ConcatAt(txns, clones, j);
    ConcatAt(Scan(txns, pool, {}, account), Scan(clones, pool, used', account), j);
  }

  lemma CloneWants(e: Entry, account: int, n: nat, j: nat)
    requires j < n
    ensures Wants(Clones(e, account, n)[j], e, account)
  {
  }

  lemma ConcatAt<T>(xs: seq<T>, ys: seq<T>, j: nat)
    requires j < |ys|
    ensures (xs + ys)[|xs| + j] == ys[j]
  {
  }

  /** Whoever goes without has seen both equal rows taken, by two others. */
  lemma WantedArePicked(txns: seq<Txn>, pool: seq<Entry>, account: int, i: nat, a: nat, b: nat)
    requires i < |txns| && Scan(txns, pool, {}, account)[i] == None
    requires a < b < |pool| && pool[a] == pool[b] && Wants(txns[i], pool[a], account)
    ensures !NoEntryTwice(txns, pool, account)
  {
    ScanIsMaximal(txns, pool, {}, account, i, a);
    ScanIsMaximal(txns, pool, {}, account, i, b);
    var picks := Scan(txns, pool, {}, account);
    var x :| 0 <= x < |picks| && picks[x] == Some(a);
    var y :| 0 <= y < |picks| && picks[y] == Some(b);
    assert x != y;
  }

  lemma SomeoneGoesWithoutEarly(txns: seq<Txn>, pool: seq<Entry>, used: set<nat>, account: int)
    requires (forall j :: j in used ==> j < |pool|) && |txns| > |pool|
    ensures exists i :: 0 <= i < |txns| && Scan(txns, pool, used, account)[i] == None
  {
    SomeoneGoesWithout(txns, pool, used, account);
  }

  lemma DistinctPoolNeverTwice(txns: seq<Txn>, pool: seq<Entry>, account: int)
    requires DistinctIds(pool)
    ensures NoEntryTwice(txns, pool, account)
  {
    PicksAreApart(txns, pool, {}, account);
    var picks := Scan(txns, pool, {}, account);
    forall i, j | 0 <= i < j < |picks| && picks[i].Some? && picks[j].Some?
      ensures pool[picks[i].value].id != pool[picks[j].value].id
    {
      var k, m := picks[i].value, picks[j].value;
      assert if k < m then pool[k].id != pool[m].id else pool[m].id != pool[k].id;
    }
  }

  /** A pool that repeats an entry lets a run match it twice. */
  lemma RepeatedRowMatchesTwice(pool: seq<Entry>, account: int, a: nat, b: nat)
    requires a < b < |pool| && pool[a] == pool[b]
    ensures !NoEntryTwice(Clones(pool[a], account, |pool| + 1), pool, account)
  {
    ClonesMatchTwice([], pool, account, a, b);
    assert [] + Clones(pool[a], account, |pool| + 1) == Clones(pool[a], account, |pool| + 1);
  }

  /**
   * No run ever matches an entry twice exactly when the pool holds each entry once.
   * Repeated rows come from entries with two lines on the bank account.
   */
  lemma NeverTwiceIffDistinct(pool: seq<Entry>, account: int)
    requires forall e, f :: e in pool && f in pool && e.id == f.id ==> e == f
    ensures (forall txns: seq<Txn> :: NoEntryTwice(txns, pool, account)) <==> DistinctIds(pool)
  {
    if DistinctIds(pool) {
      forall txns: seq<Txn>
        ensures NoEntryTwice(txns, pool, account)
      {
        DistinctPoolNeverTwice(txns, pool, account);
      }
    } else {
      var a, b :| 0 <= a < b < |pool| && pool[a].id == pool[b].id;
      RepeatedRowMatchesTwice(pool, account, a, b);
    }
  }

  // ---------------------------------------------------------------- from the entries to the runs

  function Unmatched(entries: seq<Entry>, matched: set<int>): seq<Entry> {
    if entries == [] then []
    else (if entries[0].id in matched then [] else [entries[0]]) + Unmatched(entries[1..], matched)
  }

  lemma {:induction false} UnmatchedFacts(entries: seq<Entry>, matched: set<int>)
    ensures forall e :: e in Unmatched(entries, matched) <==> e in entries && e.id !in matched
    ensures DistinctIds(entries) ==> DistinctIds(Unmatched(entries, matched))
  {
    if entries != [] {
      var rest := Unmatched(entries[1..], matched);
      UnmatchedFacts(entries[1..], matched);
      assert entries == [entries[0]] + entries[1..];
      DistinctIdsOfConcat([entries[0]], entries[1..]);
      DistinctIdsOfConcat([entries[0]], rest);
    }
  }

  lemma {:induction false} PoolOfConcat(xs: seq<Entry>, ys: seq<Entry>, account: int, matched: set<int>)
    ensures Pool(xs + ys, account, matched) == Pool(xs, account, matched) + Pool(ys, account, matched)
  {
    if ys == [] {
      assert xs + ys == xs;
    } else {
      assert (xs + ys)[..|xs + ys| - 1] == xs + ys[..|ys| - 1];
      PoolOfConcat(xs, ys[..|ys| - 1], account, matched);
    }
  }

  lemma {:induction false} LinesTouch(lines: seq<Line>, account: int)
    ensures LinesOn(lines, account) > 0 <==> Touches(lines, account)
  {
    if lines != [] {
      LinesTouch(lines[1..], account);
    }
  }

  lemma PoolOfOne(e: Entry, account: int, matched: set<int>)
    requires Touches(e.lines, account)
    ensures Pool([e], account, matched) == if e.id in matched then [] else [e]
  {
    assert [e][..0] == [];
  }

  lemma PoolOfCons(e: Entry, rest: seq<Entry>, account: int, matched: set<int>)
    requires Touches(e.lines, account)
    ensures Pool([e] + rest, account, matched) == (if e.id in matched then [] else [e]) + Pool(rest, account, matched)
  {
    PoolOfOne(e, account, matched);
    PoolOfConcat([e], rest, account, matched);
  }

  lemma {:induction false} PoolOfCopies(e: Entry, n: nat, account: int, matched: set<int>)
    requires n > 0 ==> Touches(e.lines, account)
    ensures Pool(Copies(e, n), account, matched) == if e.id in matched then [] else Copies(e, n)
  {
    if n > 0 {
      PoolOfCopies(e, n - 1, account, matched);
      PoolOfCons(e, Copies(e, n - 1), account, matched);
    }
  }

  lemma JoinedCons(e: Entry, rest: seq<Entry>, account: int)
    ensures Joined([e] + rest, account) == Copies(e, LinesOn(e.lines, account)) + Joined(rest, account)
  {
    assert ([e] + rest)[1..] == rest;
  }

  /** The pool of the joined rows is the join of the entries that are not matched yet. */
  lemma {:induction false} PoolOfJoined(entries: seq<Entry>, account: int, matched: set<int>)
    ensures Pool(Joined(entries, account), account, matched) == Joined(Unmatched(entries, matched), account)
  {
    if entries != [] {
      var e, tail := entries[0], entries[1..];
      var copies, rest := Copies(e, LinesOn(e.lines, account)), Unmatched(tail, matched);
      LinesTouch(e.lines, account);
      PoolOfCopies(e, LinesOn(e.lines, account), account, matched);
      PoolOfConcat(copies, Joined(tail, account), account, matched);
      PoolOfJoined(tail, account, matched);
      if e.id in matched {
        assert Unmatched(entries, matched) == rest;
      } else {
        JoinedCons(e, rest, account);
      }
    }
  }

  /** Transactions that no entry is matched to. */
  ghost predicate NoneMatched(txns: seq<Txn>) {
    forall t :: t in txns ==> t.matched.None?
  }

  lemma NewOnesMatchNothing(txns: seq<Txn>, more: seq<Txn>)
    requires NoneMatched(more)
    ensures MatchedIds(txns + more) == MatchedIds(txns)
  {
    forall id
      ensures id in MatchedIds(txns + more) <==> id in MatchedIds(txns)
    {
      if id in MatchedIds(txns + more) {
        var t :| t in txns + more && t.matched.Some? && t.matched.value == id;
        assert t in txns;
      }
      if id in MatchedIds(txns) {
        var t :| t in txns && t.matched.Some? && t.matched.value == id;
        assert t in txns + more;
      }
    }
  }

  /** No two transactions that the run matches get the same entry. */
  ghost predicate RunNeverTwice(txns: seq<Txn>, rows: seq<Entry>, account: int) {
    var txns' := Reconciled(txns, rows, account);
    forall i, j :: 0 <= i < j < |txns| && txns'[i] != txns[i] && txns'[j] != txns[j] ==>
      txns'[i].matched != txns'[j].matched
  }

  lemma ChangedIsPicked(txns: seq<Txn>, rows: seq<Entry>, account: int, i: nat)
    requires i < |txns|
    ensures var pool := Pool(rows, account, MatchedIds(txns));
            var pick, t' := Scan(txns, pool, {}, account)[i], Reconciled(txns, rows, account)[i];
            && (t' != txns[i] <==> pick.Some?)
            && (pick.Some? ==> t'.matched == Some(pool[pick.value].id))
  {
  }

  lemma RunsFollowPicks(txns: seq<Txn>, rows: seq<Entry>, account: int)
    ensures RunNeverTwice(txns, rows, account) <==> NoEntryTwice(txns, Pool(rows, account, MatchedIds(txns)), account)
  {
    var pool := Pool(rows, account, MatchedIds(txns));
    var picks, txns' := Scan(txns, pool, {}, account), Reconciled(txns, rows, account);
    forall i | 0 <= i < |txns|
      ensures txns'[i] != txns[i] <==> picks[i].Some?
      ensures picks[i].Some? ==> txns'[i].matched == Some(pool[picks[i].value].id)
    {
      ChangedIsPicked(txns, rows, account, i);
    }
  }

  /**
   * Whatever new transactions come in, the next run matches no entry twice if and only if
   * every entry that is not matched yet has at most one line on the bank account.
   */
  lemma RunsNeverMatchTwiceIff(txns: seq<Txn>, entries: seq<Entry>, account: int)
    requires DistinctIds(entries)
    ensures (forall more: seq<Txn> :: NoneMatched(more) ==>
               RunNeverTwice(txns + more, Joined(entries, account), account))
            <==> forall e :: e in entries && Free(txns, e) ==> OneLineAtMost(e.lines, account)
  {
    var rows, free := Joined(entries, account), Unmatched(entries, MatchedIds(txns));
    var pool := Pool(rows, account, MatchedIds(txns));
    PoolOfJoined(entries, account, MatchedIds(txns));
    UnmatchedFacts(entries, MatchedIds(txns));
    JoinedDistinctIff(free, account);
    forall e
      ensures Free(txns, e) <==> e.id !in MatchedIds(txns)
    {
      FreeIff(txns, e);
    }
    if DistinctIds(pool) {
      forall more: seq<Txn> | NoneMatched(more)
        ensures RunNeverTwice(txns + more, rows, account)
      {
        NewOnesMatchNothing(txns, more);
        DistinctPoolNeverTwice(txns + more, pool, account);
        RunsFollowPicks(txns + more, rows, account);
      }
    } else {
      var a, b :| 0 <= a < b < |pool| && pool[a].id == pool[b].id;
      JoinedComesFrom(free, account, pool[a]);
      JoinedComesFrom(free, account, pool[b]);
      SameIdSameEntry(free, pool[a], pool[b]);
      var more := Clones(pool[a], account, |pool| + 1);
      NewOnesMatchNothing(txns, more);
      ClonesMatchTwice(txns, pool, account, a, b);
      RunsFollowPicks(txns + more, rows, account);
    }
  }

  lemma SameIdSameEntry(entries: seq<Entry>, e: Entry, f: Entry)
    requires DistinctIds(entries) && e in entries && f in entries && e.id == f.id
    ensures e == f
  {
    var i :| 0 <= i < |entries| && entries[i] == e;
    var j :| 0 <= j < |entries| && entries[j] == f;
  }

  // ---------------------------------------------------------------- a second run

  /** No pending transaction wants an entry that is still unmatched. */
  ghost predicate Settled(txns: seq<Txn>, rows: seq<Entry>, account: int) {
    forall t, e :: t in txns && e in Pool(rows, account, MatchedIds(txns)) ==> !Wants(t, e, account)
  }

  /** Import, the automatic run and manual matching all set a match and the flag together. */
  ghost predicate FlagsAgree(txns: seq<Txn>) {
    forall t :: t in txns ==> (t.matched.Some? <==> t.reconciled)
  }

  lemma RunKeepsFlags(txns: seq<Txn>, rows: seq<Entry>, account: int)
    requires FlagsAgree(txns)
    ensures FlagsAgree(Reconciled(txns, rows, account))
    ensures MatchedIds(txns) <= MatchedIds(Reconciled(txns, rows, account))
  {
    var txns' := Reconciled(txns, rows, account);
    forall t | t in txns'
      ensures t.matched.Some? <==> t.reconciled
    {
      var i :| 0 <= i < |txns'| && txns'[i] == t;
      assert txns[i] in txns;
    }
    forall s | s in txns && s.matched.Some?
      ensures s.matched.value in MatchedIds(txns')
    {
      var i :| 0 <= i < |txns| && txns[i] == s;
      assert txns'[i] == s && txns'[i] in txns';
    }
  }

  /** Whatever an unmatched transaction still wants was matched by the run. */
  lemma WantedIsTaken(txns: seq<Txn>, rows: seq<Entry>, account: int, i: nat, e: Entry)
    requires FlagsAgree(txns) && e in Pool(rows, account, MatchedIds(txns))
    requires i < |txns| && Wants(Reconciled(txns, rows, account)[i], e, account)
    ensures e.id in MatchedIds(Reconciled(txns, rows, account))
  {
    var pool := Pool(rows, account, MatchedIds(txns));
    var picks := Scan(txns, pool, {}, account);
    var txns' := Reconciled(txns, rows, account);
    var j :| 0 <= j < |pool| && pool[j] == e;
    ScanIsMaximal(txns, pool, {}, account, i, j);
    var k :| 0 <= k < |picks| && picks[k] == Some(j);
    assert txns'[k].matched == Some(e.id) && txns'[k] in txns';
  }

  /** One run leaves nothing to match, whether or not rows repeat. */
  lemma RunSettles(txns: seq<Txn>, rows: seq<Entry>, account: int)
    requires FlagsAgree(txns)
    ensures Settled(Reconciled(txns, rows, account), rows, account)
  {
    var txns' := Reconciled(txns, rows, account);
    RunKeepsFlags(txns, rows, account);
    forall t, e | t in txns' && e in Pool(rows, account, MatchedIds(txns'))
      ensures !Wants(t, e, account)
    {
      InPool(rows, account, MatchedIds(txns'), e);
      InPool(rows, account, MatchedIds(txns), e);
      var i :| 0 <= i < |txns'| && txns'[i] == t;
      if Wants(t, e, account) {
        WantedIsTaken(txns, rows, account, i, e);
      }
    }
  }

  /** An immediate second run matches nothing and changes nothing. */
  lemma SecondRunMatchesNothing(txns: seq<Txn>, rows: seq<Entry>, account: int)
    requires FlagsAgree(txns)
    ensures var txns' := Reconciled(txns, rows, account);
            && Count(Scan(txns', Pool(rows, account, MatchedIds(txns')), {}, account)) == 0
            && Reconciled(txns', rows, account) == txns'
  {
    RunSettles(txns, rows, account);
    var txns' := Reconciled(txns, rows, account);
    SettledScansNothing(txns', Pool(rows, account, MatchedIds(txns')), {}, account);
  }

  lemma {:induction false} SettledScansNothing(txns: seq<Txn>, pool: seq<Entry>, used: set<nat>, account: int)
    requires forall t, e :: t in txns && e in pool ==> !Wants(t, e, account)
    ensures Count(Scan(txns, pool, used, account)) == 0
    ensures forall i :: 0 <= i < |txns| ==> Scan(txns, pool, used, account)[i].None?
  {
    if txns != [] {
      SettledScansNothing(txns[1..], pool, used, account);
    }
  }

  // ---------------------------------------------------------------- the run on lines and days

  ghost predicate FirstLine(lines: seq<Line>, account: int, i: int) {
    0 <= i < |lines| && lines[i].account == account && forall j :: 0 <= j < i ==> lines[j].account != account
  }

  /**
   * A pending transaction on the account and an entry: its first line on the account has the
   * amount on the debit side when that is positive, else on the credit side, and the days are
   * at most three apart, if the entry has one.
   */
  ghost predicate Fits(t: Txn, e: Entry, account: int) {
    && t.bankAccount == account && !t.reconciled
    && (exists i :: FirstLine(e.lines, account, i)
                    && t.amount == if e.lines[i].debit > 0 then e.lines[i].debit else e.lines[i].credit)
    && (e.date.Some? ==> -3 <= t.date - e.date.value <= 3)
  }

  ghost predicate Free(txns: seq<Txn>, e: Entry) {
    forall t :: t in txns ==> t.matched != Some(e.id)
  }

  /** Transaction k was matched to the entry by the run, and nothing else of it changed. */
  ghost predicate Took(before: seq<Txn>, after: seq<Txn>, k: int, e: Entry) {
    && 0 <= k < |before| == |after| && !before[k].reconciled
    && after[k] == before[k].(reconciled := true, matched := Some(e.id))
  }

  ghost predicate TakenBefore(before: seq<Txn>, after: seq<Txn>, e: Entry, i: int) {
    exists k :: 0 <= k < i && Took(before, after, k, e)
  }

  /** Transaction i takes row p, and every row before it that also fits was matched already or is taken earlier. */
  ghost predicate TakesRow(before: seq<Txn>, after: seq<Txn>, rows: seq<Entry>, account: int, i: nat, p: int) {
    && 0 <= p < |rows| && i < |before| && Free(before, rows[p]) && Fits(before[i], rows[p], account)
    && Took(before, after, i, rows[p])
    && forall q :: 0 <= q < p && Free(before, rows[q]) && Fits(before[i], rows[q], account) ==>
         TakenBefore(before, after, rows[q], i)
  }

  /** Transaction i stays as it is, and every row that fits was matched already or is taken earlier. */
  ghost predicate StaysOut(before: seq<Txn>, after: seq<Txn>, rows: seq<Entry>, account: int, i: nat) {
    && i < |before| == |after| && after[i] == before[i]
    && forall e :: e in rows && Free(before, e) && Fits(before[i], e, account) ==> TakenBefore(before, after, e, i)
  }

  /** Each transaction in turn takes the first row that fits and is free, or there is none. */
  ghost predicate RunsGreedily(before: seq<Txn>, after: seq<Txn>, rows: seq<Entry>, account: int) {
    |after| == |before| && forall i: nat :: i < |before| ==>
      StaysOut(before, after, rows, account, i) || exists p :: TakesRow(before, after, rows, account, i, p)
  }

  lemma {:induction false} AmountIsOnFirstLine(lines: seq<Line>, account: int) returns (i: int)
    ensures Touches(lines, account) <==> FirstLine(lines, account, i)
    ensures Touches(lines, account) ==>
              BankAmount(lines, account) == if lines[i].debit > 0 then lines[i].debit else lines[i].credit
    ensures !Touches(lines, account) ==> forall j :: 0 <= j < |lines| ==> lines[j].account != account
  {
    i := 0;
    if lines != [] && lines[0].account != account {
      i := AmountIsOnFirstLine(lines[1..], account);
      i := i + 1;
    }
  }

  lemma FitsIff(t: Txn, e: Entry, account: int)
    ensures Fits(t, e, account) <==> Touches(e.lines, account) && Wants(t, e, account)
  {
    var i := AmountIsOnFirstLine(e.lines, account);
    if k :| FirstLine(e.lines, account, k) {
      assert Touches(e.lines, account);
      assert k == i;
    }
  }

  lemma PrefixOfCons<T>(x: T, tail: seq<T>, i: nat, y: T)
    requires 0 < i <= |tail| + 1 && y in tail[..i - 1]
    ensures y in ([x] + tail)[..i]
  {
    var k :| 0 <= k < i - 1 && tail[k] == y;
    assert ([x] + tail)[..i][k + 1] == y;
  }

  /** The used positions after the first transaction's turn. */
  function UsedAfter(t: Txn, pool: seq<Entry>, used: set<nat>, account: int): set<nat> {
    var k := First(t, pool, used, account, |pool|);
    if k < |pool| then used + {k} else used
  }

  lemma ScanUnfolds(txns: seq<Txn>, pool: seq<Entry>, used: set<nat>, account: int) returns (pick: Option<nat>)
    requires txns != []
    ensures Scan(txns, pool, used, account)
         == [pick] + Scan(txns[1..], pool, UsedAfter(txns[0], pool, used, account), account)
    ensures forall j :: j in UsedAfter(txns[0], pool, used, account) ==> j in used || pick == Some(j)
    ensures forall j :: 0 <= j < |pool| && Wants(txns[0], pool[j], account) && (pick.Some? ==> j < pick.value) ==>
              j in used
  {
    var k := First(txns[0], pool, used, account, |pool|);
    pick := if k < |pool| then Some(k) else None;
  }

  /** Whatever transaction i wants ahead of its pick was used before or picked by an earlier one. */
  lemma {:induction false} ScanIsGreedy(txns: seq<Txn>, pool: seq<Entry>, used: set<nat>, account: int, i: nat, j: nat)
    requires i < |txns| && j < |pool| && Wants(txns[i], pool[j], account)
    requires var pick := Scan(txns, pool, used, account)[i]; pick.Some? ==> j < pick.value
    ensures j in used || Some(j) in Scan(txns, pool, used, account)[..i]
  {
    var pick := ScanUnfolds(txns, pool, used, account);
    if i > 0 {
      var used' := UsedAfter(txns[0], pool, used, account);
      var tail := Scan(txns[1..], pool, used', account);
      ScanIsGreedy(txns[1..], pool, used', account, i - 1, j);
      if Some(j) in tail[..i - 1] {
        PrefixOfCons(pick, tail, i, Some(j));
      } else if j !in used {
        assert ([pick] + tail)[..i][0] == Some(j);
      }
    }
  }

  /** A pool entry is a row, and the rows before it are in the pool before it, if they are there at all. */
  lemma {:induction false} PoolRow(rows: seq<Entry>, account: int, matched: set<int>, k: nat) returns (p: nat)
    requires k < |Pool(rows, account, matched)|
    ensures p < |rows| && rows[p] == Pool(rows, account, matched)[k]
    ensures forall q :: 0 <= q < p && rows[q].id !in matched && Touches(rows[q].lines, account) ==>
              rows[q] in Pool(rows, account, matched)[..k]
  {
    var n := |rows| - 1;
    var init := Pool(rows[..n], account, matched);
    if k < |init| {
      p := PoolRow(rows[..n], account, matched, k);
      assert Pool(rows, account, matched)[..k] == init[..k];
    } else {
      p := n;
      assert Pool(rows, account, matched)[..k] == init;
      forall q | 0 <= q < n && rows[q].id !in matched && Touches(rows[q].lines, account)
        ensures rows[q] in init
      {
        InPool(rows[..n], account, matched, rows[q]);
        assert rows[..n][q] == rows[q];
      }
    }
  }

  lemma FreeIff(txns: seq<Txn>, e: Entry)
    ensures Free(txns, e) <==> e.id !in MatchedIds(txns)
  {
  }

  lemma PickIsTaken(txns: seq<Txn>, rows: seq<Entry>, account: int, i: nat, j: nat)
    requires var pool := Pool(rows, account, MatchedIds(txns));
             j < |pool| && i <= |txns| && Some(j) in Scan(txns, pool, {}, account)[..i]
    ensures TakenBefore(txns, Reconciled(txns, rows, account), Pool(rows, account, MatchedIds(txns))[j], i)
  {
    var pool := Pool(rows, account, MatchedIds(txns));
    var picks := Scan(txns, pool, {}, account);
    var k :| 0 <= k < i && picks[k] == Some(j);
    assert Took(txns, Reconciled(txns, rows, account), k, pool[j]);
  }

  lemma MatchedTakesRow(txns: seq<Txn>, rows: seq<Entry>, account: int, i: nat, k: nat)
    requires i < |txns| && Scan(txns, Pool(rows, account, MatchedIds(txns)), {}, account)[i] == Some(k)
    ensures exists p :: TakesRow(txns, Reconciled(txns, rows, account), rows, account, i, p)
  {
    var matched, after := MatchedIds(txns), Reconciled(txns, rows, account);
    var pool := Pool(rows, account, matched);
    var p := PoolRow(rows, account, matched, k);
    InPool(rows, account, matched, rows[p]);
    FreeIff(txns, rows[p]);
    FitsIff(txns[i], rows[p], account);
    forall q | 0 <= q < p && Free(txns, rows[q]) && Fits(txns[i], rows[q], account)
      ensures TakenBefore(txns, after, rows[q], i)
    {
      FreeIff(txns, rows[q]);
      FitsIff(txns[i], rows[q], account);
      var j :| 0 <= j < k && pool[j] == rows[q];
      ScanIsGreedy(txns, pool, {}, account, i, j);
      PickIsTaken(txns, rows, account, i, j);
    }
    assert TakesRow(txns, after, rows, account, i, p);
  }

  lemma UnmatchedStaysOut(txns: seq<Txn>, rows: seq<Entry>, account: int, i: nat)
    requires i < |txns| && Scan(txns, Pool(rows, account, MatchedIds(txns)), {}, account)[i].None?
    ensures StaysOut(txns, Reconciled(txns, rows, account), rows, account, i)
  {
    var matched, after := MatchedIds(txns), Reconciled(txns, rows, account);
    var pool := Pool(rows, account, matched);
    forall e | e in rows && Free(txns, e) && Fits(txns[i], e, account)
      ensures TakenBefore(txns, after, e, i)
    {
      FreeIff(txns, e);
      FitsIff(txns[i], e, account);
      InPool(rows, account, matched, e);
      var j :| 0 <= j < |pool| && pool[j] == e;
      ScanIsGreedy(txns, pool, {}, account, i, j);
      PickIsTaken(txns, rows, account, i, j);
    }
  }

  /** The run, told on lines and days: each transaction in turn takes the first free row that fits. */
  lemma ReconciledIsGreedy(txns: seq<Txn>, rows: seq<Entry>, account: int)
    ensures RunsGreedily(txns, Reconciled(txns, rows, account), rows, account)
  {
    var after := Reconciled(txns, rows, account);
    forall i: nat | i < |txns|
      ensures StaysOut(txns, after, rows, account, i) || exists p :: TakesRow(txns, after, rows, account, i, p)
    {
      var pick := Scan(txns, Pool(rows, account, MatchedIds(txns)), {}, account)[i];
      if pick.Some? {
        MatchedTakesRow(txns, rows, account, i, pick.value);
      } else {
        UnmatchedStaysOut(txns, rows, account, i);
      }
    }
  }

  lemma {:induction false} PoolIsDistinct(rows: seq<Entry>, account: int, matched: set<int>)
    requires DistinctIds(rows)
    ensures DistinctIds(Pool(rows, account, matched))
  {
    if rows != [] {
      var init, last := rows[..|rows| - 1], rows[|rows| - 1];
      PoolIsDistinct(init, account, matched);
      forall e | e in Pool(init, account, matched)
        ensures e.id != last.id
      {
        InPool(init, account, matched, e);
        var i :| 0 <= i < |init| && init[i] == e;
        assert rows[i] == e;
      }
    }
  }

  /** Rows that differ by id are matched once each. */
  lemma RunIsOneToOne(txns: seq<Txn>, rows: seq<Entry>, account: int)
    ensures var after := Reconciled(txns, rows, account);
            DistinctIds(rows) ==>
              forall i, j :: 0 <= i < j < |txns| && after[i] != txns[i] && after[j] != txns[j] ==>
                after[i].matched != after[j].matched
  {
    if DistinctIds(rows) {
      PoolIsDistinct(rows, account, MatchedIds(txns));
      var after := Reconciled(txns, rows, account);
      forall i, j | 0 <= i < j < |txns| && after[i] != txns[i] && after[j] != txns[j]
        ensures after[i].matched != after[j].matched
      {
        MatchesAreOneToOne(txns, rows, account, i, j);
      }
    }
  }

  ghost function ChangedAt(before: seq<Txn>, after: seq<Txn>): set<int> {
    set i | 0 <= i < |before| && i < |after| && after[i] != before[i]
  }

  /** The count is that of the transactions that changed. */
  lemma CountIsChanges(txns: seq<Txn>, rows: seq<Entry>, account: int)
    ensures Count(Scan(txns, Pool(rows, account, MatchedIds(txns)), {}, account))
         == |ChangedAt(txns, Reconciled(txns, rows, account))|
  {
    var picks := Scan(txns, Pool(rows, account, MatchedIds(txns)), {}, account);
    CountBoundsBoth(picks);
    assert Takers(picks) == ChangedAt(txns, Reconciled(txns, rows, account));
  }

  // ---------------------------------------------------------------- the index

  /** What pool entry n adds to the bucket of one amount. */
  function Extra(pool: seq<Entry>, used: set<nat>, account: int, amount: int, n: nat): seq<Entry>
    requires n < |pool|
  {
    if n !in used && BankAmount(pool[n].lines, account) == amount then [pool[n]] else []
  }

  /** The unused pool entries of one amount among the first n, in pool order. */
  function Live(pool: seq<Entry>, used: set<nat>, account: int, amount: int, n: nat): seq<Entry>
    requires n <= |pool|
  {
    if n == 0 then []
    else
      Live(pool, used, account, amount, n - 1) + Extra(pool, used, account, amount, n - 1)
  }

  function Bucket(index: map<int, seq<Entry>>, amount: int): seq<Entry> {
    if amount in index then index[amount] else []
  }

  /** `list.remove`: the first equal element goes. */
  function RemoveFirst(es: seq<Entry>, e: Entry): seq<Entry> {
    if es == [] then []
    else if es[0] == e then es[1..]
    else [es[0]] + RemoveFirst(es[1..], e)
  }

  lemma {:induction false} RemoveFirstIn(es: seq<Entry>, e: Entry, last: seq<Entry>)
    requires e in es
    ensures RemoveFirst(es + last, e) == RemoveFirst(es, e) + last
  {
    assert (es + last)[1..] == es[1..] + last;
    if es[0] != e {
      assert es == [es[0]] + es[1..];
      RemoveFirstIn(es[1..], e, last);
    }
  }

  lemma {:induction false} RemoveFirstLast(es: seq<Entry>, e: Entry)
    requires e !in es
    ensures RemoveFirst(es + [e], e) == es
  {
    if es != [] {
      assert (es + [e])[1..] == es[1..] + [e];
      RemoveFirstLast(es[1..], e);
    }
  }

  lemma {:induction false} UsedBeyond(pool: seq<Entry>, used: set<nat>, account: int, amount: int, n: nat, k: nat)
    requires n <= |pool| && k < |pool|
    requires k >= n || BankAmount(pool[k].lines, account) != amount
    ensures Live(pool, used + {k}, account, amount, n) == Live(pool, used, account, amount, n)
  {
    if n > 0 {
      UsedBeyond(pool, used, account, amount, n - 1, k);
      assert Extra(pool, used + {k}, account, amount, n - 1) == Extra(pool, used, account, amount, n - 1);
    }
  }

  /** The bucket of the transaction's amount holds a compatible entry exactly when the pool does. */
  lemma {:induction false} LiveHasFirst(t: Txn, pool: seq<Entry>, used: set<nat>, account: int, n: nat)
    requires n <= |pool| && Pending(t, account)
    ensures var k := First(t, pool, used, account, n);
            var live := Live(pool, used, account, t.amount, n);
            if k < n then FirstDateOk(t, live, pool[k])
            else forall e :: e in live ==> !DateOk(t, e)
  {
    if n > 0 {
      LiveHasFirst(t, pool, used, account, n - 1);
      var k := First(t, pool, used, account, n - 1);
      var live := Live(pool, used, account, t.amount, n - 1);
      var more := Live(pool, used, account, t.amount, n);
      if k < n - 1 {
        var c :| IsFirstDateOk(t, live, pool[k], c);
        assert IsFirstDateOk(t, more, pool[k], c);
      } else if First(t, pool, used, account, n) == n - 1 {
        assert more == live + [pool[n - 1]];
        assert IsFirstDateOk(t, more, pool[n - 1], |live|);
      }
    }
  }

  ghost predicate IsFirstDateOk(t: Txn, es: seq<Entry>, e: Entry, c: int) {
    0 <= c < |es| && es[c] == e && DateOk(t, e) && forall i :: 0 <= i < c ==> !DateOk(t, es[i])
  }

  ghost predicate FirstDateOk(t: Txn, es: seq<Entry>, e: Entry) {
    exists c :: IsFirstDateOk(t, es, e, c)
  }

  lemma RemoveEarlier(pool: seq<Entry>, used: set<nat>, account: int, amount: int, n: nat, k: nat)
    requires k < n < |pool| && pool[k] in Live(pool, used, account, amount, n)
    requires Live(pool, used + {k}, account, amount, n) == RemoveFirst(Live(pool, used, account, amount, n), pool[k])
    ensures Live(pool, used + {k}, account, amount, n + 1)
         == RemoveFirst(Live(pool, used, account, amount, n + 1), pool[k])
  {
    RemoveFirstIn(Live(pool, used, account, amount, n), pool[k], Extra(pool, used, account, amount, n));
    assert Extra(pool, used + {k}, account, amount, n) == Extra(pool, used, account, amount, n);
  }

  lemma RemoveNewest(pool: seq<Entry>, used: set<nat>, account: int, amount: int, n: nat)
    requires n < |pool| && n !in used && BankAmount(pool[n].lines, account) == amount
    requires pool[n] !in Live(pool, used, account, amount, n)
    ensures Live(pool, used + {n}, account, amount, n + 1)
         == RemoveFirst(Live(pool, used, account, amount, n + 1), pool[n])
  {
    UsedBeyond(pool, used, account, amount, n, n);
    RemoveFirstLast(Live(pool, used, account, amount, n), pool[n]);
    assert Live(pool, used + {n}, account, amount, n + 1) == Live(pool, used + {n}, account, amount, n) + [];
  }

  /** The chosen entry is in the bucket of the entries before the newest, unless it is the newest. */
  lemma ChosenOrNewest(t: Txn, pool: seq<Entry>, used: set<nat>, account: int, n: nat, k: nat)
    requires n <= |pool| && Pending(t, account) && k == First(t, pool, used, account, n) && k < n
    ensures k < n - 1 ==>
              First(t, pool, used, account, n - 1) == k && pool[k] in Live(pool, used, account, t.amount, n - 1)
    ensures k == n - 1 ==> pool[k] !in Live(pool, used, account, t.amount, n - 1)
  {
    LiveHasFirst(t, pool, used, account, n - 1);
    assert First(t, pool, used, account, n - 1) == if k < n - 1 then k else n - 1;
    if k < n - 1 {
      FirstIsIn(t, Live(pool, used, account, t.amount, n - 1), pool[k]);
    } else {
      NoneIsIn(t, Live(pool, used, account, t.amount, n - 1), pool[k]);
    }
  }

  /** Removing the chosen entry from its bucket leaves the bucket of the smaller pool. */
  lemma {:induction false} RemoveKeepsLive(t: Txn, pool: seq<Entry>, used: set<nat>, account: int, n: nat, k: nat)
    requires n <= |pool| && Pending(t, account) && k == First(t, pool, used, account, n) && k < n
    ensures Live(pool, used + {k}, account, t.amount, n) == RemoveFirst(Live(pool, used, account, t.amount, n), pool[k])
  {
    ChosenOrNewest(t, pool, used, account, n, k);
    if k < n - 1 {
      RemoveKeepsLive(t, pool, used, account, n - 1, k);
      RemoveEarlier(pool, used, account, t.amount, n - 1, k);
    } else {
      RemoveNewest(pool, used, account, t.amount, n - 1);
    }
  }

  lemma NoneIsIn(t: Txn, es: seq<Entry>, e: Entry)
    requires DateOk(t, e) && forall x :: x in es ==> !DateOk(t, x)
    ensures e !in es
  {
  }

  lemma FirstIsIn(t: Txn, es: seq<Entry>, e: Entry)
    requires FirstDateOk(t, es, e)
    ensures e in es
  {
  }

  lemma {:induction false} LivePrefix(pool: seq<Entry>, e: Entry, account: int, amount: int, n: nat)
    requires n <= |pool|
    ensures Live(pool + [e], {}, account, amount, n) == Live(pool, {}, account, amount, n)
  {
    if n > 0 {
      LivePrefix(pool, e, account, amount, n - 1);
    }
  }

  /** The index holds, per amount, the unused pool entries of that amount in pool order. */
  ghost predicate Indexes(index: map<int, seq<Entry>>, pool: seq<Entry>, used: set<nat>, account: int) {
    forall a :: Bucket(index, a) == Live(pool, used, account, a, |pool|)
  }

  lemma PoolGrows(rows: seq<Entry>, n: nat, account: int, matched: set<int>)
    requires n < |rows|
    ensures Pool(rows[..n + 1], account, matched)
         == if rows[n].id !in matched && Touches(rows[n].lines, account)
            then Pool(rows[..n], account, matched) + [rows[n]] else Pool(rows[..n], account, matched)
  {
    assert rows[..n + 1][..n] == rows[..n];
  }

  lemma AddToIndex(index: map<int, seq<Entry>>, pool: seq<Entry>, account: int, e: Entry)
    requires Indexes(index, pool, {}, account)
    ensures var amount := BankAmount(e.lines, account);
            Indexes(index[amount := Bucket(index, amount) + [e]], pool + [e], {}, account)
  {
    var amount := BankAmount(e.lines, account);
    var index' := index[amount := Bucket(index, amount) + [e]];
    forall a
      ensures Bucket(index', a) == Live(pool + [e], {}, account, a, |pool| + 1)
    {
      LivePrefix(pool, e, account, a, |pool|);
      assert Bucket(index, a) == Live(pool, {}, account, a, |pool|);
    }
  }

  lemma RemoveFromIndex(index: map<int, seq<Entry>>, pool: seq<Entry>, used: set<nat>, account: int, t: Txn)
    requires Indexes(index, pool, used, account)
    requires Pending(t, account) && First(t, pool, used, account, |pool|) < |pool|
    ensures var k := First(t, pool, used, account, |pool|);
            Indexes(index[t.amount := RemoveFirst(Bucket(index, t.amount), pool[k])], pool, used + {k}, account)
  {
    var k := First(t, pool, used, account, |pool|);
    var index' := index[t.amount := RemoveFirst(Bucket(index, t.amount), pool[k])];
    forall a
      ensures Bucket(index', a) == Live(pool, used + {k}, account, a, |pool|)
    {
      assert Bucket(index, a) == Live(pool, used, account, a, |pool|);
      if a == t.amount {
        RemoveKeepsLive(t, pool, used, account, |pool|, k);
      } else {
        UsedBeyond(pool, used, account, a, |pool|, k);
      }
    }
  }

  /** One more transaction is final. */
  lemma TurnDone(before: seq<Txn>, after: seq<Txn>, txns: seq<Txn>, i: nat)
    requires i < |before| == |after| && txns == after[..i] + before[i..]
    ensures txns[i] == before[i] && txns[i := after[i]] == after[..i + 1] + before[i + 1..]
  {
  }

  /** What the turn writes: the match, when there is one. */
  lemma TurnWrites(before: seq<Txn>, pool: seq<Entry>, picks: seq<Option<nat>>, i: nat, k: nat)
    requires forall j :: 0 <= j < |picks| && picks[j].Some? ==> picks[j].value < |pool|
    requires i < |before| == |picks| && picks[i] == if k < |pool| then Some(k) else None
    ensures Stamp(before, picks, pool)[i]
         == if k < |pool| then before[i].(reconciled := true, matched := Some(pool[k].id)) else before[i]
  {
  }

  /** The picks of the remaining transactions are this transaction's pick and those of the rest. */
  lemma PickStep(
      before: seq<Txn>, pool: seq<Entry>, used: set<nat>, account: int, picks: seq<Option<nat>>, i: nat, k: nat)
    requires i < |before| == |picks| && picks[i..] == Scan(before[i..], pool, used, account)
    requires k == First(before[i], pool, used, account, |pool|)
    ensures picks[i] == if k < |pool| then Some(k) else None
    ensures picks[i + 1..] == Scan(before[i + 1..], pool, if k < |pool| then used + {k} else used, account)
    ensures Count(picks[i..]) == (if k < |pool| then 1 else 0) + Count(picks[i + 1..])
  {
  }

  /** The loop of the run before turn i: what is final, what is still to be picked, and the count. */
  ghost predicate Midway(before: seq<Txn>, after: seq<Txn>, picks: seq<Option<nat>>, pool: seq<Entry>,
                         txns: seq<Txn>, used: set<nat>, account: int, i: nat, count: nat)
  {
    && i <= |before| == |picks| == |after|
    && txns == after[..i] + before[i..]
    && picks[i..] == Scan(before[i..], pool, used, account)
    && count + Count(picks[i..]) == Count(picks)
  }

  lemma MidwayStart(before: seq<Txn>, after: seq<Txn>, picks: seq<Option<nat>>, pool: seq<Entry>, account: int)
    requires picks == Scan(before, pool, {}, account) && |after| == |before|
    ensures Midway(before, after, picks, pool, before, {}, account, 0, 0)
  {
    assert after[..0] + before[0..] == before && picks[0..] == picks;
  }

  lemma MidwayEnd(before: seq<Txn>, after: seq<Txn>, picks: seq<Option<nat>>, pool: seq<Entry>,
                  txns: seq<Txn>, used: set<nat>, account: int, i: nat, count: nat)
    requires Midway(before, after, picks, pool, txns, used, account, i, count) && i == |before|
    ensures txns == after && count == Count(picks)
  {
    assert picks[i..] == [] && after[..i] + before[i..] == after;
  }

  lemma MidwayStep(before: seq<Txn>, after: seq<Txn>, picks: seq<Option<nat>>, pool: seq<Entry>,
                   txns: seq<Txn>, used: set<nat>, account: int, i: nat, count: nat, k: nat)
    requires Midway(before, after, picks, pool, txns, used, account, i, count) && i < |before|
    requires forall j :: 0 <= j < |picks| && picks[j].Some? ==> picks[j].value < |pool|
    requires after == Stamp(before, picks, pool) && k == First(before[i], pool, used, account, |pool|)
    ensures txns[i] == before[i] && |txns| == |before|
    ensures if k < |pool| then
              Midway(before, after, picks, pool,
                     txns[i := before[i].(reconciled := true, matched := Some(pool[k].id))],
                     used + {k}, account, i + 1, count + 1)
            else Midway(before, after, picks, pool, txns, used, account, i + 1, count)
  {
    TurnDone(before, after, txns, i);
    PickStep(before, pool, used, account, picks, i, k);
    TurnWrites(before, pool, picks, i, k);
    assert txns[i := txns[i]] == txns;
  }

  // ---------------------------------------------------------------- the handler

  class BankDesk {
    var txns: seq<Txn>

    constructor (txns: seq<Txn>)
      ensures this.txns == txns
    {
      this.txns := txns;
    }

    /** The amount of the entry's first line on the account, if it has one. */
    method LineAmount(entry: Entry, account: int) returns (amount: Option<int>)
      ensures amount.None? <==> forall j :: 0 <= j < |entry.lines| ==> entry.lines[j].account != account
      ensures amount.Some? ==>
                exists i :: FirstLine(entry.lines, account, i)
                            && amount.value == if entry.lines[i].debit > 0 then entry.lines[i].debit
                                               else entry.lines[i].credit
      ensures amount == if Touches(entry.lines, account) then Some(BankAmount(entry.lines, account)) else None
    {
      for i := 0 to |entry.lines|
        invariant Touches(entry.lines, account) == Touches(entry.lines[i..], account)
        invariant BankAmount(entry.lines, account) == BankAmount(entry.lines[i..], account)
        invariant forall j :: 0 <= j < i ==> entry.lines[j].account != account
      {
        var line := entry.lines[i];
        assert entry.lines[i..][0] == line && entry.lines[i..][1..] == entry.lines[i + 1..];
        if line.account == account {
          assert FirstLine(entry.lines, account, i);
          return Some(if line.debit > 0 then line.debit else line.credit);
        }
      }
      amount := None;
    }

    /** Index the unmatched joined rows by the amount of their first line on the account. */
    method IndexByAmount(rows: seq<Entry>, account: int, matched: set<int>) returns (index: map<int, seq<Entry>>)
      ensures Indexes(index, Pool(rows, account, matched), {}, account)
    {
      index := map[];
      ghost var pool := [];
      for n := 0 to |rows|
        invariant pool == Pool(rows[..n], account, matched)
        invariant Indexes(index, pool, {}, account)
      {
        var entry := rows[n];
        PoolGrows(rows, n, account, matched);
        if entry.id !in matched {
          var amount := LineAmount(entry, account);
          if amount.Some? {
            AddToIndex(index, pool, account, entry);
            index := index[amount.value := Bucket(index, amount.value) + [entry]];
            pool := pool + [entry];
          }
        }
      }
      assert rows[..|rows|] == rows;
    }

    /** The first candidate within three days, if any. */
    method BestMatch(t: Txn, candidates: seq<Entry>) returns (best: Option<Entry>)
      ensures best.Some? ==> FirstDateOk(t, candidates, best.value)
      ensures best.None? ==> forall e :: e in candidates ==> !DateOk(t, e)
      ensures best.None? <==> forall e :: e in candidates ==> e.date.Some? && !(-3 <= t.date - e.date.value <= 3)
    {
      for c := 0 to |candidates|
        invariant forall i :: 0 <= i < c ==> !DateOk(t, candidates[i])
      {
        var cand := candidates[c];
        if cand.date.Some? {
          var gap := Abs(t.date - cand.date.value);
          if gap <= 3 {
            assert IsFirstDateOk(t, candidates, cand, c);
            return Some(cand);
          }
        } else {
          assert IsFirstDateOk(t, candidates, cand, c);
          return Some(cand);
        }
      }
      best := None;
    }

    /** One transaction's turn: take the best candidate of its amount out of the index. */
    method TakeMatch(t: Txn, index: map<int, seq<Entry>>, ghost pool: seq<Entry>, ghost used: set<nat>, account: int)
      returns (best: Option<Entry>, index': map<int, seq<Entry>>)
      requires Indexes(index, pool, used, account)
      ensures var k := First(t, pool, used, account, |pool|);
              if k < |pool| then best == Some(pool[k]) && Indexes(index', pool, used + {k}, account)
              else best == None && index' == index
    {
      best, index' := None, index;
      if Pending(t, account) {
        LiveHasFirst(t, pool, used, account, |pool|);
        var candidates := Bucket(index, t.amount);
        best := BestMatch(t, candidates);
        if best.Some? {
          RemoveFromIndex(index, pool, used, account, t);
          index' := index[t.amount := RemoveFirst(candidates, best.value)];
        }
      }
    }

    /** The run: exactly the plain scan's picks, recorded on the transactions. */
    method AutoRunBankReconciliation(rows: seq<Entry>, account: int) returns (matchedCount: nat)
      modifies this
      ensures txns == Reconciled(old(txns), rows, account)
      ensures matchedCount == Count(Scan(old(txns), Pool(rows, account, MatchedIds(old(txns))), {}, account))
      ensures RunsGreedily(old(txns), txns, rows, account) && matchedCount == |ChangedAt(old(txns), txns)|
      ensures DistinctIds(rows) ==>
                forall i, j :: 0 <= i < j < |txns| && txns[i] != old(txns)[i] && txns[j] != old(txns)[j] ==>
                  txns[i].matched != txns[j].matched
    {
      ReconciledIsGreedy(txns, rows, account);
      CountIsChanges(txns, rows, account);
      RunIsOneToOne(txns, rows, account);
      ghost var pool := Pool(rows, account, MatchedIds(txns));
      ghost var before, used: set<nat> := txns, {};
      ghost var picks := Scan(before, pool, used, account);
      ghost var after := Stamp(before, picks, pool);
      MidwayStart(before, after, picks, pool, account);
      var potential := IndexByAmount(rows, account, MatchedIds(txns));
      matchedCount := 0;
      var n := |txns|;
      for i := 0 to n
        invariant Midway(before, after, picks, pool, txns, used, account, i, matchedCount) && |before| == n
        invariant Indexes(potential, pool, used, account)
      {
        var bt := txns[i];
        ghost var k := First(bt, pool, used, account, |pool|);
        MidwayStep(before, after, picks, pool, txns, used, account, i, matchedCount, k);
        var best;
        best, potential := TakeMatch(bt, potential, pool, used, account);
        if best.Some? {
          txns := txns[i := bt.(reconciled := true, matched := Some(best.value.id))];
          matchedCount := matchedCount + 1;
          used := used + {k};
        }
      }
      MidwayEnd(before, after, picks, pool, txns, used, account, n, matchedCount);
    }
  }
}
