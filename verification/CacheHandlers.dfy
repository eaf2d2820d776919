/**
 * app/cache/redis.py as operations on a shared store, and the handlers of
 * app/api/ai.py on top of them. Each handler is tied to the protocol machine,
 * and run one at a time the cache is transparent.
 */
module CacheHandlers {
  import opened Prelude
  import opened CacheAnswers
  import opened CacheKeys
  import opened CacheProtocol

  class Redis {
    var store: Store

    constructor ()
      ensures store == map[]
    {
      store := map[];
    }
  }

  method CacheGetJson(redis: Redis?, key: string) returns (data: Option<Value>)
    ensures redis == null || key !in redis.store ==> data == None
    ensures redis != null && key in redis.store ==> data == Some(redis.store[key])
  {
    if redis == null {
      return None;
    }
    if key !in redis.store {
      return None;
    }
    data := Some(redis.store[key]);
  }

  method CacheSetJson(redis: Redis?, key: string, value: Value)
    modifies redis
    ensures redis != null ==> redis.store == old(redis.store)[key := value]
  {
    if redis == null {
      return;
    }
    redis.store := redis.store[key := value];
  }

  method GetCacheVersion(redis: Redis?) returns (version: int)
    ensures redis == null || VERSION_KEY !in redis.store || !redis.store[VERSION_KEY].Number? ==> version == 1
    ensures redis != null && VERSION_KEY in redis.store && redis.store[VERSION_KEY].Number? ==>
              version == redis.store[VERSION_KEY].n
  {
    version := 1;
    if redis != null && VERSION_KEY in redis.store {
      var raw := redis.store[VERSION_KEY];
      if raw.Number? {
        version := raw.n;
      }
    }
  }

  method BumpCacheVersion(redis: Redis?)
    modifies redis
    ensures redis != null ==> redis.store == Incr(old(redis.store))
    ensures redis != null && VERSION_KEY !in old(redis.store) ==>
              redis.store == old(redis.store)[VERSION_KEY := Number(1)]
    ensures redis != null && VERSION_KEY in old(redis.store) && old(redis.store)[VERSION_KEY].Number? ==>
              redis.store == old(redis.store)[VERSION_KEY := Number(old(redis.store)[VERSION_KEY].n + 1)]
  {
    if redis == null {
      return;
    }
    if VERSION_KEY !in redis.store {
      redis.store := redis.store[VERSION_KEY := Number(1)];
    } else if redis.store[VERSION_KEY].Number? {
      redis.store := redis.store[VERSION_KEY := Number(redis.store[VERSION_KEY].n + 1)];
    }
  }

  // ---------------------------------------------------------------- specification of a cached read

  /** The answer (none when a cached number fails validation) and the store afterwards. */
  function ReadThrough(store: Store, rows: seq<Row>, q: Query): (Option<Answer>, Store) {
    var key := Key(VersionOf(store), q);
    match GetJson(store, key)
    case Some(Body(a)) => (Some(a), store)
    case Some(Number(_)) => (None, store)
    case None =>
      var a := Eval(q, rows);
      (Some(a), if a.NotFound? then store else store[key := Body(a)])
  }

  /** The handler is four consecutive steps of one reader of the machine. */
  lemma ReadThroughIsOneReader(w: World, r: nat, q: Query, n: nat)
    requires |w.tables| > 0 && r !in w.readers && n == |w.tables| - 1
    requires ReadThrough(w.store, w.tables[n], q).0.Some?
    ensures var w' := Step(Step(Step(Step(w, Fetch(r, q)), LookUp(r)), Compute(r, n)), Fill(r));
            var (a, store) := ReadThrough(w.store, w.tables[n], q);
            w'.readers[r].phase == Done(a.value) && w'.store == store && w'.tables == w.tables
  {
    var hit := GetJson(w.store, Key(VersionOf(w.store), q));
    if hit.Some? {
      HitSteps(w, r, q, n, hit.value.answer);
    } else {
      var a := Eval(q, w.tables[n]);
      LookUpStep(w, r, q);
      ComputeStep(w, r, q, n, a);
      if !a.NotFound? {
        FillStep(w, r, q, a);
      }
    }
  }

  lemma HitSteps(w: World, r: nat, q: Query, n: nat, a: Answer)
    requires |w.tables| > 0 && GetJson(w.store, Key(VersionOf(w.store), q)) == Some(Body(a))
    ensures var w' := Reading(w, r, q, Done(a));
            Step(Reading(w, r, q, Fetched), LookUp(r)) == w' == Step(w', Compute(r, n)) && Step(w', Fill(r)) == w'
  {
    assert Step(Reading(w, r, q, Fetched), LookUp(r)).readers == Reading(w, r, q, Done(a)).readers;
  }

  /** An entry of a request of Q, stored under some version so far, up to date if it is the current one. */
  ghost predicate EntryCurrent(store: Store, rows: seq<Row>, Q: iset<Query>, key: string, v: int, q: Query)
    requires key in store
  {
    && q in Q && Key(v, q) == key && v <= VersionOf(store)
    && store[key].Body? && (v == VersionOf(store) ==> store[key].answer == Eval(q, rows))
  }

  ghost predicate Coherent(store: Store, rows: seq<Row>, Q: iset<Query>) {
    && VERSION_KEY in store && store[VERSION_KEY].Number?
    && forall key :: key in store && key != VERSION_KEY ==>
         exists v: int, q: Query :: EntryCurrent(store, rows, Q, key, v, q)
  }

  /** No two requests of Q print alike and are answered differently on this table. */
  ghost predicate Told(rows: seq<Row>, Q: iset<Query>) {
    forall p, q :: p in Q && q in Q && SameRequest(p, q) ==> Eval(p, rows) == Eval(q, rows)
  }

  /**
   * In a store that is coherent for the requests of Q, a cached read of one of them returns
   * what the table holds now for a request of Q that prints alike, its own one when Q's
   * requests are told apart, and the store stays coherent.
   */
  lemma CoherentReadIsTransparent(store: Store, rows: seq<Row>, Q: iset<Query>, q: Query)
    requires Coherent(store, rows, Q) && q in Q
    ensures var (a, store') := ReadThrough(store, rows, q);
            && a.Some? && (exists p: Query :: p in Q && SameRequest(p, q) && a.value == Eval(p, rows))
            && (Told(rows, Q) ==> a.value == Eval(q, rows))
            && Coherent(store', rows, Q) && VersionOf(store') == VersionOf(store)
  {
    var cur := VersionOf(store);
    var key := Key(cur, q);
    KeyIsNotVersionKey(cur, q);
    if key in store {
      var v: int, p: Query :| EntryCurrent(store, rows, Q, key, v, p);
      KeysMeet(v, p, cur, q);
    } else {
      assert SameRequest(q, q);
      var store' := ReadThrough(store, rows, q).1;
      forall k | k in store' && k != VERSION_KEY
        ensures exists v: int, p: Query :: EntryCurrent(store', rows, Q, k, v, p)
      {
        if k == key && key in store' {
          assert EntryCurrent(store', rows, Q, k, cur, q);
        } else {
          var v: int, p: Query :| EntryCurrent(store, rows, Q, k, v, p);
          assert EntryCurrent(store', rows, Q, k, v, p);
        }
      }
    }
  }

  /** Only then: two requests that are not told apart mix up, the one read first is handed to the other. */
  lemma UntoldReadsMixUp(store: Store, rows: seq<Row>, Q: iset<Query>, p: Query, q: Query)
    requires Coherent(store, rows, Q) && p in Q && q in Q
    requires SameRequest(p, q) && Eval(p, rows) != Eval(q, rows) && Key(VersionOf(store), p) !in store
    ensures var store' := ReadThrough(store, rows, p).1;
            ReadThrough(store', rows, q).0 == Some(Eval(p, rows))
  {
    KeyIsNotVersionKey(VersionOf(store), p);
    KeysMeet(VersionOf(store), p, VersionOf(store), q);
  }

  /** A row inserted without a bump is hidden by a page that was read before. */
  lemma UnbumpedInsertIsHidden(store: Store, rows: seq<Row>, row: Row, q: Query)
    requires q == ANY_PAGE && Key(VersionOf(store), q) !in store
    ensures var store' := ReadThrough(store, rows, q).1;
            ReadThrough(store', rows + [row], q).0 == Some(Eval(q, rows)) && Eval(q, rows) != Eval(q, rows + [row])
  {
    KeyIsNotVersionKey(VersionOf(store), q);
    InsertGrowsTotal(rows, row);
  }

  /** A bump outdates every entry, so the store is coherent with whatever the table became. */
  lemma BumpRestoresCoherence(store: Store, rows: seq<Row>, rows': seq<Row>, Q: iset<Query>)
    requires Coherent(store, rows, Q)
    ensures Coherent(Incr(store), rows', Q)
  {
    var store' := Incr(store);
    forall k | k in store' && k != VERSION_KEY
      ensures exists v: int, p: Query :: EntryCurrent(store', rows', Q, k, v, p)
    {
      var v: int, p: Query :| EntryCurrent(store, rows, Q, k, v, p);
      assert EntryCurrent(store', rows', Q, k, v, p);
    }
  }

  // ---------------------------------------------------------------- the handlers

  class PredictionDesk {
    var rows: seq<Row>
    const redis: Redis?
    /** The requests in use. */
    ghost const asked: iset<Query>

    ghost predicate Valid()
      reads this, redis
    {
      Ascending(rows) && (redis != null ==> Coherent(redis.store, rows, asked))
    }

    constructor (redis: Redis?, ghost asked: iset<Query>)
      requires redis != null ==> Coherent(redis.store, [], asked)
      ensures Valid() && rows == [] && this.redis == redis && this.asked == asked
    {
      this.redis, this.asked := redis, asked;
      rows := [];
    }

    /**
     * list_predictions and get_prediction: the same read-through on two kinds of request. The
     * answer is that of a request in use that prints alike, the reader's own when they are told apart,
     * and it is what the rows tell about that request.
     */
    method Read(q: Query) returns (answer: Answer)
      requires Valid() && q in asked
      modifies redis
      ensures Valid()
      ensures redis == null ==> answer == Eval(q, rows)
      ensures redis != null ==> (Some(answer), redis.store) == ReadThrough(old(redis.store), rows, q)
      ensures exists p: Query :: p in asked && SameRequest(p, q) && answer == Eval(p, rows) && Tells(rows, p, answer)
      ensures redis == null || Told(rows, asked) ==> answer == Eval(q, rows) && Tells(rows, q, answer)
    {
      if redis != null {
        CoherentReadIsTransparent(redis.store, rows, asked, q);
      }
      forall p: Query
        ensures Tells(rows, p, Eval(p, rows))
      {
        EvalTells(rows, p);
      }
      assert SameRequest(q, q);
      var version := GetCacheVersion(redis);
      var key := Key(version, q);
      var cached := CacheGetJson(redis, key);
      if cached.Some? {
        return cached.value.answer;
      }
      answer := Eval(q, rows);
      if answer.NotFound? {
        return;
      }
      CacheSetJson(redis, key, Body(answer));
    }

    /** predict, update_prediction and delete_prediction: change the rows, then bump. */
    method Write(w: Write) returns (ok: bool)
      requires Valid()
      modifies this`rows, redis
      ensures Valid()
      ensures ok == Accepted(old(rows), w)
      ensures ok <==> w.Insert? || exists r :: r in old(rows) && r.id == w.id
      ensures rows == if ok then Apply(old(rows), w) else old(rows)
      ensures ok ==> Writes(old(rows), w, rows)
      ensures redis != null ==> redis.store == if ok then Incr(old(redis.store)) else old(redis.store)
    {
      ApplyWrites(rows, w);
      ok := Accepted(rows, w);
      if !ok {
        return;
      }
      if redis != null {
        BumpRestoresCoherence(redis.store, rows, Apply(rows, w), asked);
      }
      rows := Apply(rows, w);
      BumpCacheVersion(redis);
    }
  }
}
