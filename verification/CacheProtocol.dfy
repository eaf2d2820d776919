/**
 * The versioned read-through cache of app/cache/redis.py as the handlers of
 * app/api/ai.py use it: readers fetch a version, look up, query and store;
 * writers make a change visible and bump the version. The machine interleaves
 * the single steps of any number of readers and writers with expiry.
 */
module CacheProtocol {
  import opened Prelude
  import opened CacheKeys

  // ---------------------------------------------------------------- the shared store

  datatype Value = Number(n: int) | Body(answer: Answer)

  type Store = map<string, Value>

  function GetJson(store: Store, key: string): Option<Value> {
    if key in store then Some(store[key]) else None
  }

  /** A version that is missing, or is not a number, reads as 1. */
  function VersionOf(store: Store): int {
    if VERSION_KEY in store && store[VERSION_KEY].Number? then store[VERSION_KEY].n else 1
  }

  /** INCR: a missing key counts up from 0, a value that is no number is refused. */
  function Incr(store: Store): Store {
    if VERSION_KEY !in store then store[VERSION_KEY := Number(1)]
    else if store[VERSION_KEY].Number? then store[VERSION_KEY := Number(store[VERSION_KEY].n + 1)]
    else store
  }

  // ---------------------------------------------------------------- the machine

  datatype Phase = Fetched | Missed | Computed(answer: Answer) | Done(result: Answer)

  /** `seen` are the writes whose bump had finished when the version was fetched. */
  datatype Reader = Reader(q: Query, v: int, seen: set<nat>, phase: Phase)

  /**
   * `tables` is the history of the visible table: write number n produced
   * tables[n]. `bumped` maps the writes whose bump finished to the version it gave.
   */
  datatype World = World(store: Store, tables: seq<seq<Row>>, bumped: map<nat, int>, readers: map<nat, Reader>)

  /** A query runs on table number n: the one that its session's snapshot shows. */
  datatype Event =
    | Fetch(r: nat, q: Query)
    | LookUp(r: nat)
    | Compute(r: nat, n: nat)
    | Fill(r: nat)
    | Publish(w: Write)
    | Bump(n: nat)
    | Expire(key: string)

  function Current(w: World): seq<Row>
    requires |w.tables| > 0
  {
    w.tables[|w.tables| - 1]
  }

  function SetPhase(w: World, r: nat, p: Phase): World
    requires r in w.readers
  {
    w.(readers := w.readers[r := w.readers[r].(phase := p)])
  }

  function Step(w: World, e: Event): World
    requires |w.tables| > 0
  {
    match e
    case Fetch(r, q) =>
      if r in w.readers then w
      else w.(readers := w.readers[r := Reader(q, VersionOf(w.store), w.bumped.Keys, Fetched)])
    case LookUp(r) =>
      if r !in w.readers || !w.readers[r].phase.Fetched? then w
      else
        (match GetJson(w.store, Key(w.readers[r].v, w.readers[r].q))
         case Some(Body(a)) => SetPhase(w, r, Done(a))
         case Some(Number(_)) => w
         case None => SetPhase(w, r, Missed))
    case Compute(r, n) =>
      if r !in w.readers || !w.readers[r].phase.Missed? || n >= |w.tables| then w
      else
        var a := Eval(w.readers[r].q, w.tables[n]);
        SetPhase(w, r, if a.NotFound? then Done(a) else Computed(a))
    case Fill(r) =>
      if r !in w.readers || !w.readers[r].phase.Computed? then w
      else
        var a := w.readers[r].phase.answer;
        SetPhase(w.(store := w.store[Key(w.readers[r].v, w.readers[r].q) := Body(a)]), r, Done(a))
    case Publish(x) =>
      if Accepted(Current(w), x) then w.(tables := w.tables + [Apply(Current(w), x)]) else w
    case Bump(n) =>
      if n in w.bumped then w
      else
        var store := Incr(w.store);
        w.(store := store, bumped := w.bumped[n := VersionOf(store)])
    case Expire(key) =>
      if key == VERSION_KEY then w else w.(store := w.store - {key})
  }

  function Run(w: World, es: seq<Event>): (w': World)
    requires |w.tables| > 0
    ensures |w'.tables| > 0
    decreases es
  {
    if es == [] then w else Run(Step(w, es[0]), es[1..])
  }

  /** Which disciplines a system keeps: bumps after their writes, snapshots after version fetches. */
  datatype Order = Order(visible: bool, snapshot: bool)

  /** A bump comes after its own write became visible. */
  predicate BumpsVisible(w: World, e: Event) {
    e.Bump? ==> 1 <= e.n < |w.tables|
  }

  /** A query sees every visible write whose bump had finished when its reader fetched the version. */
  predicate SeesBumped(w: World, e: Event) {
    e.Compute? && e.r in w.readers ==> forall m :: m in w.readers[e.r].seen && m < |w.tables| ==> m <= e.n
  }

  predicate Keeps(o: Order, w: World, e: Event) {
    (o.visible ==> BumpsVisible(w, e)) && (o.snapshot ==> SeesBumped(w, e))
  }

  predicate RunKeeps(o: Order, w: World, es: seq<Event>)
    requires |w.tables| > 0
    decreases es
  {
    es == [] || (Keeps(o, w, es[0]) && RunKeeps(o, Step(w, es[0]), es[1..]))
  }

  const ORDERLY := Order(true, true)

  predicate Orderly(w: World, e: Event) {
    BumpsVisible(w, e) && SeesBumped(w, e)
  }

  predicate OrderlyRun(w: World, es: seq<Event>)
    requires |w.tables| > 0
  {
    RunKeeps(ORDERLY, w, es)
  }

  ghost predicate Start(w: World) {
    && w.readers == map[] && w.bumped == map[] && |w.tables| == 1
    && w.store.Keys <= {VERSION_KEY}
    && (VERSION_KEY in w.store ==> w.store[VERSION_KEY].Number?)
  }

  // ---------------------------------------------------------------- freshness

  /** `a` answers a request printed like `q` on table number n. */
  ghost predicate AnswerAt(w: World, q: Query, a: Answer, r: nat, n: nat) {
    && r in w.readers && SameRequest(w.readers[r].q, q)
    && n < |w.tables| && a == Eval(w.readers[r].q, w.tables[n])
  }

  /**
   * A finished reader returned some reader's query, under the same key as its own,
   * on a table that includes every write it had seen bumped.
   */
  ghost predicate Fresh(w: World, r: nat)
    requires r in w.readers
  {
    w.readers[r].phase.Done? ==>
      exists p: nat, n: nat :: AnswerAt(w, w.readers[r].q, w.readers[r].phase.result, p, n)
        && forall m :: m in w.readers[r].seen ==> m <= n
  }

  ghost predicate AllFresh(w: World) {
    forall r :: r in w.readers ==> Fresh(w, r)
  }

  // ---------------------------------------------------------------- invariant

  ghost predicate Covers(bumped: map<nat, int>, v: int, n: nat) {
    forall m :: m in bumped && bumped[m] <= v ==> m <= n
  }

  ghost predicate Answers(w: World, v: int, q: Query, a: Answer) {
    exists r: nat, n: nat :: AnswerAt(w, q, a, r, n) && Covers(w.bumped, v, n)
  }

  ghost predicate EntryNames(w: World, key: string, v: int, q: Query, a: Answer) {
    Key(v, q) == key && v <= VersionOf(w.store) && Answers(w, v, q, a)
  }

  ghost predicate EntryOk(w: World, key: string)
    requires key in w.store
  {
    w.store[key].Body? && exists v: int, q: Query :: EntryNames(w, key, v, q, w.store[key].answer)
  }

  ghost predicate ReaderOk(w: World, r: nat)
    requires r in w.readers
  {
    var x := w.readers[r];
    && x.v <= VersionOf(w.store)
    && x.seen <= w.bumped.Keys
    && (forall m :: m in w.bumped ==> (w.bumped[m] <= x.v <==> m in x.seen))
    && (x.phase.Computed? ==> Answers(w, x.v, x.q, x.phase.answer))
    && (x.phase.Done? ==> Answers(w, x.v, x.q, x.phase.result))
  }

  predicate Numbered(w: World) {
    |w.tables| > 0 && VERSION_KEY in w.store && w.store[VERSION_KEY].Number?
  }

  ghost predicate Inv(w: World) {
    && Numbered(w)
    && (forall m :: m in w.bumped ==> 1 <= m < |w.tables| && w.bumped[m] <= VersionOf(w.store))
    && (forall k {:trigger EntryOk(w, k)} :: k in w.store && k != VERSION_KEY ==> EntryOk(w, k))
    && (forall r {:trigger ReaderOk(w, r)} :: r in w.readers ==> ReaderOk(w, r))
  }

  /** What no step takes back: tables, requests, versions and finished bumps. */
  ghost predicate Grows(w: World, w': World) {
    && w.tables <= w'.tables
    && VersionOf(w.store) <= VersionOf(w'.store)
    && (forall r :: r in w.readers ==> r in w'.readers && w'.readers[r].q == w.readers[r].q)
    && (forall m :: m in w'.bumped ==>
          if m in w.bumped then w.bumped[m] == w'.bumped[m] else w'.bumped[m] > VersionOf(w.store))
    && w.bumped.Keys <= w'.bumped.Keys
  }

  // ---------------------------------------------------------------- what every step keeps

  lemma AnswersKept(w: World, w': World, v: int, q: Query, a: Answer)
    requires Grows(w, w') && v <= VersionOf(w.store) && Answers(w, v, q, a)
    ensures Answers(w', v, q, a)
  {
    var r: nat, n: nat :| AnswerAt(w, q, a, r, n) && Covers(w.bumped, v, n);
    assert AnswerAt(w', q, a, r, n);
  }

  lemma EntryKept(w: World, w': World, k: string)
    requires Grows(w, w') && k in w.store && EntryOk(w, k)
    requires k in w'.store && w'.store[k] == w.store[k]
    ensures EntryOk(w', k)
  {
    var v: int, q: Query :| EntryNames(w, k, v, q, w.store[k].answer);
    AnswersKept(w, w', v, q, w.store[k].answer);
    assert EntryNames(w', k, v, q, w'.store[k].answer);
  }

  lemma ReaderKept(w: World, w': World, r: nat)
    requires Grows(w, w') && r in w.readers && ReaderOk(w, r)
    requires w'.readers[r] == w.readers[r]
    ensures ReaderOk(w', r)
  {
    var x := w.readers[r];
    if x.phase.Computed? {
      AnswersKept(w, w', x.v, x.q, x.phase.answer);
    }
    if x.phase.Done? {
      AnswersKept(w, w', x.v, x.q, x.phase.result);
    }
  }

  lemma StepGrows(w: World, e: Event)
    requires Numbered(w)
    ensures Grows(w, Step(w, e))
  {
    if e.Fill? && e.r in w.readers {
      KeyIsNotVersionKey(w.readers[e.r].v, w.readers[e.r].q);
    }
  }

  /** A hit hands over an answer that was justified when it was stored. */
  lemma HitIsAnswered(w: World, r: nat, a: Answer)
    requires r in w.readers
    requires GetJson(w.store, Key(w.readers[r].v, w.readers[r].q)) == Some(Body(a))
    requires EntryOk(w, Key(w.readers[r].v, w.readers[r].q))
    ensures Answers(w, w.readers[r].v, w.readers[r].q, a)
  {
    var x := w.readers[r];
    var v: int, q: Query :| EntryNames(w, Key(x.v, x.q), v, q, a);
    KeysMeet(v, q, x.v, x.q);
    var p: nat, n: nat :| AnswerAt(w, q, a, p, n) && Covers(w.bumped, v, n);
    assert AnswerAt(w, x.q, a, p, n);
  }

  /** A table with every write the reader had seen bumped answers for its version. */
  lemma ComputedIsAnswered(w: World, r: nat, n: nat)
    requires r in w.readers && ReaderOk(w, r) && n < |w.tables| && SeesBumped(w, Compute(r, n))
    requires forall m :: m in w.bumped ==> m < |w.tables|
    ensures Answers(w, w.readers[r].v, w.readers[r].q, Eval(w.readers[r].q, w.tables[n]))
  {
    var x := w.readers[r];
    assert AnswerAt(w, x.q, Eval(x.q, w.tables[n]), r, n);
    assert Covers(w.bumped, x.v, n);
  }

  lemma PhaseChanged(w: World, w': World, r: nat, p: Phase)
    requires Grows(w, w') && r in w.readers && ReaderOk(w, r)
    requires w'.readers[r] == w.readers[r].(phase := p)
    requires p.Computed? ==> Answers(w, w.readers[r].v, w.readers[r].q, p.answer)
    requires p.Done? ==> Answers(w, w.readers[r].v, w.readers[r].q, p.result)
    ensures ReaderOk(w', r)
  {
    var x := w.readers[r];
    if p.Computed? {
      AnswersKept(w, w', x.v, x.q, p.answer);
    }
    if p.Done? {
      AnswersKept(w, w', x.v, x.q, p.result);
    }
  }

  lemma OwnStepKeepsReader(w: World, e: Event, r: nat)
    requires Inv(w) && Orderly(w, e) && Grows(w, Step(w, e)) && r in w.readers && ReaderOk(w, r)
    requires (e.LookUp? || e.Compute? || e.Fill?) && e.r == r && Step(w, e).readers[r] != w.readers[r]
    ensures ReaderOk(Step(w, e), r)
  {
    var w' := Step(w, e);
    var p := w'.readers[r].phase;
    if e.LookUp? && p.Done? {
      KeyIsNotVersionKey(w.readers[r].v, w.readers[r].q);
      HitIsAnswered(w, r, p.result);
    }
    if e.Compute? {
      ComputedIsAnswered(w, r, e.n);
    }
    PhaseChanged(w, w', r, p);
  }

  lemma StepKeepsReader(w: World, e: Event, r: nat)
    requires Inv(w) && Orderly(w, e) && r in Step(w, e).readers
    ensures ReaderOk(Step(w, e), r)
  {
    StepGrows(w, e);
    if r in w.readers {
      assert ReaderOk(w, r);
      if Step(w, e).readers[r] == w.readers[r] {
        ReaderKept(w, Step(w, e), r);
      } else {
        OwnStepKeepsReader(w, e, r);
      }
    }
  }

  lemma StepKeepsEntry(w: World, e: Event, k: string)
    requires Numbered(w) && k != VERSION_KEY
    requires k in w.store ==> EntryOk(w, k)
    requires e.Fill? && e.r in w.readers ==> ReaderOk(w, e.r)
    ensures k in Step(w, e).store ==> EntryOk(Step(w, e), k)
  {
    var w' := Step(w, e);
    StepGrows(w, e);
    if k in w'.store && k in w.store && w'.store[k] == w.store[k] {
      EntryKept(w, w', k);
    } else if k in w'.store {
      var x := w.readers[e.r];
      AnswersKept(w, w', x.v, x.q, x.phase.answer);
      assert EntryNames(w', k, x.v, x.q, x.phase.answer);
    }
  }

  // ---------------------------------------------------------------- a miss and a hit

  const NEW_ROW := Insert("delay", None, "{}")

  lemma RunFirst(o: Order, w: World, e: Event, rest: seq<Event>)
    requires |w.tables| > 0
    ensures Run(w, [e] + rest) == Run(Step(w, e), rest)
    ensures RunKeeps(o, w, [e] + rest) <==> Keeps(o, w, e) && RunKeeps(o, Step(w, e), rest)
  {
  }

  /** A page older than the last write a reader had seen bumped is not fresh. */
  lemma StaleReader(w: World, r: nat, n: nat)
    requires r in w.readers && w.readers[r].phase.Done? && n in w.readers[r].seen
    requires n == |w.tables| - 1
    requires forall p :: p in w.readers ==> w.readers[p].q == ANY_PAGE
    requires w.readers[r].phase.result != Eval(ANY_PAGE, w.tables[n])
    ensures !Fresh(w, r)
  {
  }

  /** A reader that finds nothing cached computes the page on table n and stores it. */
  function Miss(r: nat, q: Query, n: nat): seq<Event> {
    [Fetch(r, q)] + ([LookUp(r)] + ([Compute(r, n)] + [Fill(r)]))
  }

  /** The world with one more reader, that has got as far as `p`. */
  function Reading(w: World, r: nat, q: Query, p: Phase): World {
    w.(readers := w.readers[r := Reader(q, VersionOf(w.store), w.bumped.Keys, p)])
  }

  function Filled(w: World, r: nat, q: Query, a: Answer): World {
    Reading(w.(store := w.store[Key(VersionOf(w.store), q) := Body(a)]), r, q, Done(a))
  }

  lemma LookUpStep(w: World, r: nat, q: Query)
    requires |w.tables| > 0 && Key(VersionOf(w.store), q) !in w.store
    ensures Step(Reading(w, r, q, Fetched), LookUp(r)) == Reading(w, r, q, Missed)
  {
    assert Step(Reading(w, r, q, Fetched), LookUp(r)).readers == Reading(w, r, q, Missed).readers;
  }

  lemma ComputeStep(w: World, r: nat, q: Query, n: nat, a: Answer)
    requires |w.tables| > 0 && n < |w.tables| && a == Eval(q, w.tables[n])
    ensures Step(Reading(w, r, q, Missed), Compute(r, n))
         == Reading(w, r, q, if a.NotFound? then Done(a) else Computed(a))
  {
    var p := if a.NotFound? then Done(a) else Computed(a);
    assert Step(Reading(w, r, q, Missed), Compute(r, n)).readers == Reading(w, r, q, p).readers;
  }

  lemma FillStep(w: World, r: nat, q: Query, a: Answer)
    requires |w.tables| > 0
    ensures var w' := Step(Reading(w, r, q, Computed(a)), Fill(r));
            && w'.store == w.store[Key(VersionOf(w.store), q) := Body(a)] && w'.tables == w.tables
            && w'.bumped == w.bumped && w'.readers == Reading(w, r, q, Done(a)).readers
  {
    assert Step(Reading(w, r, q, Computed(a)), Fill(r)).readers == Reading(w, r, q, Done(a)).readers;
  }

  /** Table n shows every visible write whose bump has finished. */
  predicate Shows(w: World, n: nat) {
    n < |w.tables| && forall m :: m in w.bumped && m < |w.tables| ==> m <= n
  }

  lemma MissFillsTheCache(o: Order, w: World, r: nat, q: Query, n: nat, rest: seq<Event>)
    requires |w.tables| > 0 && q.List? && r !in w.readers && Key(VersionOf(w.store), q) !in w.store && n < |w.tables|
    ensures Run(w, Miss(r, q, n) + rest) == Run(Filled(w, r, q, Eval(q, w.tables[n])), rest)
    ensures (o.snapshot ==> Shows(w, n)) ==>
              (RunKeeps(o, w, Miss(r, q, n) + rest) <==> RunKeeps(o, Filled(w, r, q, Eval(q, w.tables[n])), rest))
  {
    var a := Eval(q, w.tables[n]);
    LookUpStep(w, r, q);
    ComputeStep(w, r, q, n, a);
    FillStep(w, r, q, a);
    KeyIsNotVersionKey(VersionOf(w.store), q);
    var w1, w2, w3 := Reading(w, r, q, Fetched), Reading(w, r, q, Missed), Reading(w, r, q, Computed(a));
    assert Miss(r, q, n) + rest == [Fetch(r, q)] + ([LookUp(r)] + ([Compute(r, n)] + ([Fill(r)] + rest)));
    RunFirst(o, w, Fetch(r, q), [LookUp(r)] + ([Compute(r, n)] + ([Fill(r)] + rest)));
    RunFirst(o, w1, LookUp(r), [Compute(r, n)] + ([Fill(r)] + rest));
    RunFirst(o, w2, Compute(r, n), [Fill(r)] + rest);
    RunFirst(o, w3, Fill(r), rest);
    assert Step(w3, Fill(r)) == Filled(w, r, q, a);
  }

  /** A reader that finds the page cached returns it. */
  function Hit(r: nat, q: Query): seq<Event> {
    [Fetch(r, q)] + [LookUp(r)]
  }

  lemma HitReturnsTheEntry(o: Order, w: World, r: nat, q: Query, a: Answer)
    requires |w.tables| > 0 && r !in w.readers
    requires GetJson(w.store, Key(VersionOf(w.store), q)) == Some(Body(a))
    ensures Run(w, Hit(r, q)) == Reading(w, r, q, Done(a))
    ensures RunKeeps(o, w, Hit(r, q))
  {
    var w1 := Reading(w, r, q, Fetched);
    assert Step(w, Fetch(r, q)) == w1;
    assert Step(w1, LookUp(r)).readers == Reading(w, r, q, Done(a)).readers;
    assert Hit(r, q) == [Fetch(r, q)] + ([LookUp(r)] + []);
    RunFirst(o, w, Fetch(r, q), [LookUp(r)] + []);
    RunFirst(o, w1, LookUp(r), []);
  }
}
