/**
 * Runs of the cache machine: every orderly run from an existing version key is fresh, and
 * a run goes stale as soon as one hypothesis of that theorem is dropped.
 */
module CacheRuns {
  import opened Prelude
  import opened CacheKeys
  import opened CacheProtocol

  // ---------------------------------------------------------------- the invariant over runs

  lemma StepKeepsInv(w: World, e: Event)
    requires Inv(w) && Orderly(w, e)
    ensures Inv(Step(w, e))
  {
    var w' := Step(w, e);
    StepGrows(w, e);
    if e.Fill? && e.r in w.readers {
      KeyIsNotVersionKey(w.readers[e.r].v, w.readers[e.r].q);
    }
    forall k | k in w'.store && k != VERSION_KEY
      ensures EntryOk(w', k)
    {
      StepKeepsEntry(w, e, k);
    }
    forall r | r in w'.readers
      ensures ReaderOk(w', r)
    {
      StepKeepsReader(w, e, r);
    }
  }

  lemma {:induction false} RunKeepsInv(w: World, es: seq<Event>)
    requires Inv(w) && OrderlyRun(w, es)
    ensures Inv(Run(w, es))
    decreases es
  {
    if es != [] {
      StepKeepsInv(w, es[0]);
      RunKeepsInv(Step(w, es[0]), es[1..]);
    }
  }

  lemma InvIsFresh(w: World)
    requires Inv(w)
    ensures AllFresh(w)
  {
    forall r | r in w.readers
      ensures Fresh(w, r)
    {
      var x := w.readers[r];
      assert ReaderOk(w, r);
      if x.phase.Done? {
        var p: nat, n: nat :| AnswerAt(w, x.q, x.phase.result, p, n) && Covers(w.bumped, x.v, n);
        assert forall m :: m in x.seen ==> m in w.bumped && m <= n;
      }
    }
  }

  // ---------------------------------------------------------------- theorems

  /** Starting from an existing version key, no interleaving yields a stale answer. */
  lemma FreshUnderEveryInterleaving(w: World, es: seq<Event>)
    requires Start(w) && VERSION_KEY in w.store && OrderlyRun(w, es)
    ensures AllFresh(Run(w, es))
  {
    assert Inv(w);
    RunKeepsInv(w, es);
    InvIsFresh(Run(w, es));
  }

  // ---------------------------------------------------------------- runs that go stale

  /** A read, then a write with its bump, then the same read again. */
  function FirstBumpRun(q: Query): seq<Event> {
    Miss(0, q, 0) + ([Publish(NEW_ROW)] + ([Bump(1)] + Hit(1, q)))
  }

  /** Publishing a row and bumping for it, seen from a world where reader 0 has filled the cache. */
  lemma FirstBump(w: World, q: Query, a: Answer)
    requires Start(w) && VERSION_KEY !in w.store && q.List?
    ensures var w1 := Filled(w, 0, q, a);
            var w2 := Step(w1, Publish(NEW_ROW));
            var w3 := Step(w2, Bump(1));
            && w3.tables == w.tables + [Apply(w.tables[0], NEW_ROW)]
            && w3.bumped.Keys == {1} && w3.readers == w1.readers && |w2.tables| == 2
            && GetJson(w3.store, Key(VersionOf(w3.store), q)) == Some(Body(a))
  {
    KeyIsNotVersionKey(1, q);
  }

  /** From a missing version key the first bump leaves the effective version at 1. */
  lemma MissingKeyGoesStale(o: Order, w: World, q: Query)
    requires Start(w) && VERSION_KEY !in w.store && q == ANY_PAGE
    ensures RunKeeps(o, w, FirstBumpRun(q))
    ensures !AllFresh(Run(w, FirstBumpRun(q)))
  {
    var a := Eval(q, w.tables[0]);
    MissFillsTheCache(o, w, 0, q, 0, [Publish(NEW_ROW)] + ([Bump(1)] + Hit(1, q)));
    FirstBump(w, q, a);
    var w1 := Filled(w, 0, q, a);
    var w2 := Step(w1, Publish(NEW_ROW));
    var w3 := Step(w2, Bump(1));
    RunFirst(o, w1, Publish(NEW_ROW), [Bump(1)] + Hit(1, q));
    RunFirst(o, w2, Bump(1), Hit(1, q));
    HitReturnsTheEntry(o, w3, 1, q, a);
    OldPageIsStale(w, w3, q);
  }

  /** Returning the page of the first table when the second is bumped and seen is stale. */
  lemma OldPageIsStale(w: World, w3: World, q: Query)
    requires |w.tables| == 1 && q == ANY_PAGE && w3.tables == w.tables + [Apply(w.tables[0], NEW_ROW)]
    requires w3.readers.Keys == {0} && w3.readers[0].q == q && w3.bumped.Keys == {1}
    ensures !Fresh(Reading(w3, 1, q, Done(Eval(q, w.tables[0]))), 1)
  {
    var t := Apply(w.tables[0], NEW_ROW);
    InsertGrowsTotal(w.tables[0], t[|t| - 1]);
    StaleReader(Reading(w3, 1, q, Done(Eval(q, w.tables[0]))), 1, 1);
  }

  /** The bump of a write, a read, and only then the write itself; then the same read again. */
  function EarlyBumpRun(q: Query): seq<Event> {
    [Bump(1)] + (Miss(0, q, 0) + ([Publish(NEW_ROW)] + Hit(1, q)))
  }

  /** Reader 0 fills the cache between the bump and the row that it was for. */
  lemma EarlyBump(w: World, q: Query, a: Answer)
    requires Start(w) && VERSION_KEY in w.store && q.List?
    ensures var w1 := Step(w, Bump(1));
            var w2 := Filled(w1, 0, q, a);
            var w3 := Step(w2, Publish(NEW_ROW));
            && w1.tables == w.tables && w1.readers == map[] && Key(VersionOf(w1.store), q) !in w1.store
            && w3.tables == w.tables + [Apply(w.tables[0], NEW_ROW)]
            && w3.bumped.Keys == {1} && w3.readers == w2.readers
            && GetJson(w3.store, Key(VersionOf(w3.store), q)) == Some(Body(a))
  {
    KeyIsNotVersionKey(VersionOf(Step(w, Bump(1)).store), q);
  }

  /** Bumping before the write is visible lets a reader store the old page under the new version. */
  lemma VisibleAfterBumpGoesStale(o: Order, w: World, q: Query)
    requires Start(w) && VERSION_KEY in w.store && q == ANY_PAGE
    ensures RunKeeps(o, w, EarlyBumpRun(q)) <==> !o.visible
    ensures var w' := Run(w, EarlyBumpRun(q));
            |w'.tables| == 2 && 1 in w'.readers && w'.readers[1].seen == {1} && !Fresh(w', 1)
  {
    var a := Eval(q, w.tables[0]);
    EarlyBump(w, q, a);
    var w1 := Step(w, Bump(1));
    var w2 := Filled(w1, 0, q, a);
    var w3 := Step(w2, Publish(NEW_ROW));
    RunFirst(o, w, Bump(1), Miss(0, q, 0) + ([Publish(NEW_ROW)] + Hit(1, q)));
    MissFillsTheCache(o, w1, 0, q, 0, [Publish(NEW_ROW)] + Hit(1, q));
    RunFirst(o, w2, Publish(NEW_ROW), Hit(1, q));
    HitReturnsTheEntry(o, w3, 1, q, a);
    OldPageIsStale(w, w3, q);
  }

  /** A write and its bump, then a read whose snapshot was taken before them; then a read that hits. */
  function EarlySnapshotRun(q: Query): seq<Event> {
    [Publish(NEW_ROW)] + ([Bump(1)] + (Miss(0, q, 0) + Hit(1, q)))
  }

  /** The world after the write and its bump. */
  lemma WriteAndBump(w: World, q: Query)
    requires Start(w) && VERSION_KEY in w.store
    ensures var w2 := Step(Step(w, Publish(NEW_ROW)), Bump(1));
            && w2.tables == w.tables + [Apply(w.tables[0], NEW_ROW)] && w2.bumped.Keys == {1}
            && w2.readers == map[] && Key(VersionOf(w2.store), q) !in w2.store
  {
    KeyIsNotVersionKey(VersionOf(Step(Step(w, Publish(NEW_ROW)), Bump(1)).store), q);
  }

  /**
   * A snapshot older than the version fetch is enough to go stale, although every write is
   * visible before its bump: the old page is stored under the new version and handed on.
   */
  lemma EarlySnapshotGoesStale(o: Order, w: World, q: Query)
    requires Start(w) && VERSION_KEY in w.store && q == ANY_PAGE && !o.snapshot
    ensures RunKeeps(o, w, EarlySnapshotRun(q))
    ensures var w' := Run(w, EarlySnapshotRun(q));
            |w'.tables| == 2 && 1 in w'.readers && w'.readers[1].seen == {1} && !Fresh(w', 1)
  {
    var a := Eval(q, w.tables[0]);
    WriteAndBump(w, q);
    var w1 := Step(w, Publish(NEW_ROW));
    var w2 := Step(w1, Bump(1));
    var w3 := Filled(w2, 0, q, a);
    RunFirst(o, w, Publish(NEW_ROW), [Bump(1)] + (Miss(0, q, 0) + Hit(1, q)));
    RunFirst(o, w1, Bump(1), Miss(0, q, 0) + Hit(1, q));
    MissFillsTheCache(o, w2, 0, q, 0, Hit(1, q));
    KeyIsNotVersionKey(VersionOf(w2.store), q);
    HitReturnsTheEntry(o, w3, 1, q, a);
    OldPageIsStale(w, w3, q);
  }

  // ---------------------------------------------------------------- exactly when reads are fresh

  /**
   * Every run that keeps the order is fresh if and only if the order has both disciplines,
   * each bump after its write is visible and each snapshot after its version fetch, and the
   * version key exists at the start.
   */
  lemma FreshExactlyWhen(o: Order, w: World)
    requires Start(w)
    ensures (forall es: seq<Event> :: RunKeeps(o, w, es) ==> AllFresh(Run(w, es)))
            <==> o.visible && o.snapshot && VERSION_KEY in w.store
  {
    if VERSION_KEY !in w.store {
      MissingKeyGoesStale(o, w, ANY_PAGE);
    } else if !o.visible {
      VisibleAfterBumpGoesStale(o, w, ANY_PAGE);
    } else if !o.snapshot {
      EarlySnapshotGoesStale(o, w, ANY_PAGE);
    } else {
      assert o == ORDERLY;
      forall es: seq<Event> | RunKeeps(o, w, es)
        ensures AllFresh(Run(w, es))
      {
        FreshUnderEveryInterleaving(w, es);
      }
    }
  }

  /** Freshness under every orderly interleaving holds exactly when the version key exists. */
  lemma FreshExactlyFromAnExistingKey(w: World)
    requires Start(w)
    ensures (forall es: seq<Event> :: OrderlyRun(w, es) ==> AllFresh(Run(w, es))) <==> VERSION_KEY in w.store
  {
    FreshExactlyWhen(ORDERLY, w);
    assert forall es: seq<Event> :: OrderlyRun(w, es) <==> RunKeeps(ORDERLY, w, es);
  }
}
