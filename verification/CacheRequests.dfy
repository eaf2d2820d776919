/**
 * Whose question a cached answer answers: requests that print alike share a key, so a reader
 * is sure to get its own answer exactly when no two requests in use print alike and differ.
 */
module CacheRequests {
  import opened Prelude
  import opened CacheKeys
  import opened CacheProtocol
  import opened CacheRuns

  // ---------------------------------------------------------------- tables that writes can reach

  function Written(t: seq<Row>, x: Write): seq<Row> {
    if Accepted(t, x) then Apply(t, x) else t
  }

  function AfterWrites(t: seq<Row>, xs: seq<Write>): seq<Row>
    decreases xs
  {
    if xs == [] then t else AfterWrites(Written(t, xs[0]), xs[1..])
  }

  lemma {:induction false} OneMoreWrite(t: seq<Row>, xs: seq<Write>, x: Write)
    ensures AfterWrites(t, xs + [x]) == Written(AfterWrites(t, xs), x)
    decreases xs
  {
    if xs == [] {
      assert [] + [x] == [x];
    } else {
      assert (xs + [x])[1..] == xs[1..] + [x];
      OneMoreWrite(Written(t, xs[0]), xs[1..], x);
    }
  }

  ghost predicate Reached(t: seq<Row>, t': seq<Row>) {
    exists xs: seq<Write> :: t' == AfterWrites(t, xs)
  }

  /** Every table so far comes from the first one by writes, and every reader asks a request of Q. */
  ghost predicate Within(w: World, t: seq<Row>, Q: iset<Query>) {
    && (forall n :: 0 <= n < |w.tables| ==> Reached(t, w.tables[n]))
    && (forall r :: r in w.readers ==> w.readers[r].q in Q)
  }

  ghost predicate Asks(es: seq<Event>, Q: iset<Query>) {
    forall e :: e in es ==> e.Fetch? ==> e.q in Q
  }

  lemma StepWithin(w: World, e: Event, t: seq<Row>, Q: iset<Query>)
    requires |w.tables| > 0 && Within(w, t, Q) && (e.Fetch? ==> e.q in Q)
    ensures Within(Step(w, e), t, Q)
  {
    if e.Publish? && Accepted(Current(w), e.w) {
      assert Reached(t, w.tables[|w.tables| - 1]);
      var xs: seq<Write> :| Current(w) == AfterWrites(t, xs);
      OneMoreWrite(t, xs, e.w);
      assert Reached(t, Apply(Current(w), e.w));
    }
  }

  lemma {:induction false} RunWithin(w: World, es: seq<Event>, t: seq<Row>, Q: iset<Query>)
    requires |w.tables| > 0 && Within(w, t, Q) && Asks(es, Q)
    ensures Within(Run(w, es), t, Q)
    decreases es
  {
    if es != [] {
      assert es[0] in es;
      StepWithin(w, es[0], t, Q);
      RunWithin(Step(w, es[0]), es[1..], t, Q);
    }
  }

  // ---------------------------------------------------------------- own answers

  ghost predicate OwnAt(w: World, r: nat, n: nat)
    requires r in w.readers && w.readers[r].phase.Done?
  {
    && n < |w.tables| && w.readers[r].phase.result == Eval(w.readers[r].q, w.tables[n])
    && forall m :: m in w.readers[r].seen ==> m <= n
  }

  /** A finished reader returned its own request, on a table with every write it had seen bumped. */
  ghost predicate Own(w: World, r: nat)
    requires r in w.readers
  {
    w.readers[r].phase.Done? ==> exists n: nat :: OwnAt(w, r, n)
  }

  ghost predicate AllOwn(w: World) {
    forall r :: r in w.readers ==> Own(w, r)
  }

  /** Two requests that print alike, and are answered differently on a table the writes lead to. */
  ghost predicate Confused(t: seq<Row>, p: Query, q: Query, xs: seq<Write>) {
    SameRequest(p, q) && Eval(p, AfterWrites(t, xs)) != Eval(q, AfterWrites(t, xs))
  }

  ghost predicate Telling(t: seq<Row>, Q: iset<Query>) {
    forall p, q, xs: seq<Write> :: p in Q && q in Q ==> !Confused(t, p, q, xs)
  }

  lemma FreshIsOwn(w: World, t: seq<Row>, Q: iset<Query>)
    requires AllFresh(w) && Within(w, t, Q) && Telling(t, Q)
    ensures AllOwn(w)
  {
    forall r | r in w.readers && w.readers[r].phase.Done?
      ensures exists n: nat :: OwnAt(w, r, n)
    {
      var x := w.readers[r];
      assert Fresh(w, r);
      var p: nat, n: nat :| AnswerAt(w, x.q, x.phase.result, p, n) && forall m :: m in x.seen ==> m <= n;
      assert Reached(t, w.tables[n]);
      var xs: seq<Write> :| w.tables[n] == AfterWrites(t, xs);
      assert !Confused(t, w.readers[p].q, x.q, xs);
      assert OwnAt(w, r, n);
    }
  }

  // ---------------------------------------------------------------- being handed another's page

  function Publishes(xs: seq<Write>): seq<Event> {
    if xs == [] then [] else [Publish(xs[0])] + Publishes(xs[1..])
  }

  /** The history of tables after some writes. */
  function History(tables: seq<seq<Row>>, xs: seq<Write>): (h: seq<seq<Row>>)
    requires |tables| > 0
    ensures |h| > 0
    decreases xs
  {
    if xs == [] then tables
    else
      var t := tables[|tables| - 1];
      History(if Accepted(t, xs[0]) then tables + [Apply(t, xs[0])] else tables, xs[1..])
  }

  lemma {:induction false} HistoryEnds(tables: seq<seq<Row>>, xs: seq<Write>)
    requires |tables| > 0
    ensures var h := History(tables, xs);
            |h| >= |tables| && h[|h| - 1] == AfterWrites(tables[|tables| - 1], xs)
    decreases xs
  {
    if xs != [] {
      var t := tables[|tables| - 1];
      HistoryEnds(if Accepted(t, xs[0]) then tables + [Apply(t, xs[0])] else tables, xs[1..]);
    }
  }

  lemma {:induction false} PublishAll(w: World, xs: seq<Write>, rest: seq<Event>)
    requires |w.tables| > 0
    ensures var w' := w.(tables := History(w.tables, xs));
            && Run(w, Publishes(xs) + rest) == Run(w', rest)
            && (OrderlyRun(w, Publishes(xs) + rest) <==> OrderlyRun(w', rest))
    decreases xs
  {
    if xs == [] {
      assert Publishes(xs) + rest == rest;
      assert w.(tables := History(w.tables, xs)) == w;
    } else {
      assert Publishes(xs) + rest == [Publish(xs[0])] + (Publishes(xs[1..]) + rest);
      RunFirst(ORDERLY, w, Publish(xs[0]), Publishes(xs[1..]) + rest);
      PublishAll(Step(w, Publish(xs[0])), xs[1..], rest);
    }
  }

  /** Bump for the last write, if there was one. */
  function LastBump(k: nat): seq<Event> {
    if k == 0 then [] else [Bump(k)]
  }

  /** The writes, the bump of the last, one reader asking p and storing it, another asking q. */
  function MixUpRun(p: Query, q: Query, xs: seq<Write>, k: nat): seq<Event> {
    Publishes(xs) + (LastBump(k) + (Miss(0, p, k) + Hit(1, q)))
  }

  lemma {:induction false} PublishesAskNothing(xs: seq<Write>, e: Event)
    requires e in Publishes(xs)
    ensures e.Publish?
  {
    if e != Publish(xs[0]) {
      PublishesAskNothing(xs[1..], e);
    }
  }

  lemma MixUpAsks(p: Query, q: Query, xs: seq<Write>, k: nat, Q: iset<Query>)
    requires p in Q && q in Q
    ensures Asks(MixUpRun(p, q, xs, k), Q)
  {
    forall e | e in MixUpRun(p, q, xs, k)
      ensures e.Fetch? ==> e.q in Q
    {
      if e in Publishes(xs) {
        PublishesAskNothing(xs, e);
      }
    }
  }

  /** The world after the writes and the bump: the last table is bumped, if it is not the first. */
  ghost predicate Bumped(w: World, w2: World, k: nat) {
    && w2.tables == w.tables && w2.readers == w.readers && k == |w.tables| - 1
    && w2.store.Keys <= {VERSION_KEY} && w2.bumped.Keys == if k == 0 then {} else {k}
  }

  lemma BumpLast(w: World, k: nat, rest: seq<Event>) returns (w2: World)
    requires |w.tables| > 0 && k == |w.tables| - 1 && w.readers == map[] && w.bumped == map[]
    requires w.store.Keys == {VERSION_KEY}
    ensures Bumped(w, w2, k) && Run(w, LastBump(k) + rest) == Run(w2, rest)
    ensures OrderlyRun(w, LastBump(k) + rest) <==> OrderlyRun(w2, rest)
  {
    if k == 0 {
      w2 := w;
      assert LastBump(k) + rest == rest;
    } else {
      w2 := Step(w, Bump(k));
      RunFirst(ORDERLY, w, Bump(k), rest);
    }
  }

  /** What p stores is found under the key of every request that prints alike. */
  lemma StoredForBoth(w: World, p: Query, q: Query, a: Answer)
    requires SameRequest(p, q)
    ensures var store := Filled(w, 0, p, a).store;
            VersionOf(store) == VersionOf(w.store) && GetJson(store, Key(VersionOf(store), q)) == Some(Body(a))
  {
    KeyIsNotVersionKey(VersionOf(w.store), p);
    KeysMeet(VersionOf(w.store), p, VersionOf(w.store), q);
  }

  /** The second reader is handed the first one's page. */
  lemma HandedOver(w: World, p: Query, q: Query, k: nat, a: Answer)
    requires |w.tables| > 0 && w.readers == map[] && w.store.Keys <= {VERSION_KEY} && p.List? && SameRequest(p, q)
    requires k < |w.tables| && Shows(w, k) && a == Eval(p, w.tables[k])
    ensures Run(w, Miss(0, p, k) + Hit(1, q)) == Reading(Filled(w, 0, p, a), 1, q, Done(a))
    ensures OrderlyRun(w, Miss(0, p, k) + Hit(1, q))
  {
    KeyIsNotVersionKey(VersionOf(w.store), p);
    MissFillsTheCache(ORDERLY, w, 0, p, k, Hit(1, q));
    StoredForBoth(w, p, q, a);
    HitReturnsTheEntry(ORDERLY, Filled(w, 0, p, a), 1, q, a);
  }

  /** From a world whose writes are done: the bump, the miss and the hit. */
  lemma MixUpEnds(w: World, p: Query, q: Query, k: nat)
    requires |w.tables| > 0 && k == |w.tables| - 1 && w.readers == map[] && w.bumped == map[]
    requires w.store.Keys == {VERSION_KEY} && p.List? && SameRequest(p, q)
    requires Eval(p, w.tables[k]) != Eval(q, w.tables[k])
    ensures var rest := LastBump(k) + (Miss(0, p, k) + Hit(1, q));
            OrderlyRun(w, rest) && !AllOwn(Run(w, rest))
  {
    var w2 := BumpLast(w, k, Miss(0, p, k) + Hit(1, q));
    var a := Eval(p, w2.tables[k]);
    HandedOver(w2, p, q, k, a);
    NotOwn(Reading(Filled(w2, 0, p, a), 1, q, Done(a)), 1, k);
  }

  lemma MixUp(w: World, p: Query, q: Query, xs: seq<Write>, Q: iset<Query>) returns (es: seq<Event>)
    requires Start(w) && VERSION_KEY in w.store && p in Q && q in Q && Confused(w.tables[0], p, q, xs)
    ensures OrderlyRun(w, es) && Asks(es, Q) && !AllOwn(Run(w, es))
  {
    var k: nat := |History(w.tables, xs)| - 1;
    es := MixUpRun(p, q, xs, k);
    MixUpAsks(p, q, xs, k, Q);
    HistoryEnds(w.tables, xs);
    PublishAll(w, xs, LastBump(k) + (Miss(0, p, k) + Hit(1, q)));
    MixUpEnds(w.(tables := History(w.tables, xs)), p, q, k);
  }

  lemma NotOwn(w: World, r: nat, k: nat)
    requires r in w.readers && w.readers[r].phase.Done? && k == |w.tables| - 1
    requires w.readers[r].seen == if k == 0 then {} else {k}
    requires w.readers[r].phase.result != Eval(w.readers[r].q, w.tables[k])
    ensures !Own(w, r)
  {
    forall n: nat
      ensures !OwnAt(w, r, n)
    {
      assert k != 0 ==> k in w.readers[r].seen;
    }
  }

  // ---------------------------------------------------------------- theorems

  /**
   * From an existing version key and over all orderly interleavings of requests of Q, every
   * finished reader gets its own request on a table with every write it had seen bumped, if
   * and only if no two requests of Q print alike and differ on a table that writes lead to.
   */
  lemma OwnAnswersIff(w: World, Q: iset<Query>)
    requires Start(w) && VERSION_KEY in w.store
    ensures (forall es: seq<Event> :: OrderlyRun(w, es) && Asks(es, Q) ==> AllOwn(Run(w, es)))
            <==> Telling(w.tables[0], Q)
  {
    if Telling(w.tables[0], Q) {
      forall es: seq<Event> | OrderlyRun(w, es) && Asks(es, Q)
        ensures AllOwn(Run(w, es))
      {
        assert w.tables[0] == AfterWrites(w.tables[0], []);
        FreshUnderEveryInterleaving(w, es);
        RunWithin(w, es, w.tables[0], Q);
        FreshIsOwn(Run(w, es), w.tables[0], Q);
      }
    } else {
      var p, q, xs: seq<Write> :| p in Q && q in Q && Confused(w.tables[0], p, q, xs);
      var es := MixUp(w, p, q, xs, Q);
    }
  }

  /** Requests whose filters print unambiguously never confuse. */
  lemma PlainRequestsTell(t: seq<Row>, Q: iset<Query>)
    requires forall q :: q in Q ==> Plain(q)
    ensures Telling(t, Q)
  {
    forall p, q, xs: seq<Write> | p in Q && q in Q
      ensures !Confused(t, p, q, xs)
    {
      if SameRequest(p, q) {
        PlainRequestsAreTold(p, q);
      }
    }
  }

  /** So readers whose filters hold no colon and are not the word None get their own answers. */
  lemma PlainReadersGetTheirOwnAnswer(w: World, es: seq<Event>, Q: iset<Query>)
    requires Start(w) && VERSION_KEY in w.store && OrderlyRun(w, es) && Asks(es, Q)
    requires forall q :: q in Q ==> Plain(q)
    ensures AllOwn(Run(w, es))
  {
    PlainRequestsTell(w.tables[0], Q);
    OwnAnswersIff(w, Q);
  }

  const NONE_PAGE := List(20, 0, Some("None"), None)

  lemma {:induction false} FilterFindsNoMore(q: Query, rows: seq<Row>)
    requires q.List?
    ensures |Matching(q, rows)| <= |rows|
  {
    if rows != [] {
      FilterFindsNoMore(q, rows[1..]);
    }
  }

  lemma {:induction false} FilterSkips(q: Query, rows: seq<Row>, row: Row)
    requires q.List? && !Wanted(q, row)
    ensures Matching(q, rows + [row]) == Matching(q, rows)
  {
    if rows == [] {
      assert [] + [row] == [row];
      assert Matching(q, [row]) == [] + [];
    } else {
      assert (rows + [row])[1..] == rows[1..] + [row];
      FilterSkips(q, rows[1..], row);
    }
  }

  lemma {:induction false} NoFilterFindsAll(q: Query, rows: seq<Row>)
    requires q == ANY_PAGE
    ensures |Matching(q, rows)| == |rows|
  {
    if rows != [] {
      NoFilterFindsAll(q, rows[1..]);
    }
  }

  /** Whatever the table, the unfiltered page and the one for a module called None get mixed up. */
  lemma NoneIsConfusing(t: seq<Row>, Q: iset<Query>, p: Query, q: Query)
    requires p == ANY_PAGE && q == NONE_PAGE && p in Q && q in Q
    ensures !Telling(t, Q)
  {
    var t' := Apply(t, NEW_ROW);
    var row := t'[|t'| - 1];
    assert Filters(p) == Filters(q);
    NoFilterFindsAll(p, t');
    FilterSkips(q, t, row);
    FilterFindsNoMore(q, t);
    assert Written(t, NEW_ROW) == t';
    assert AfterWrites(t, [NEW_ROW]) == AfterWrites(t', []) == t';
    assert Confused(t, p, q, [NEW_ROW]);
  }
}
