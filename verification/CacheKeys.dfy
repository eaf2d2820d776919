/**
 * The prediction table, its two cached queries, and the text keys under which
 * their answers are cached (app/api/ai.py).
 */
module CacheKeys {
  import opened Prelude
  import opened Text

  // ---------------------------------------------------------------- table

  datatype Row = Row(id: nat, moduleName: string, prompt: Option<string>, prediction: string)

  /** The writes of the router; an update carries only the fields present in its payload. */
  datatype Write =
    | Insert(moduleName: string, prompt: Option<string>, prediction: string)
    | Update(id: nat, newModule: Option<string>, newPrompt: Option<Option<string>>, newPrediction: Option<string>)
    | Delete(id: nat)

  function NextId(rows: seq<Row>): nat {
    if rows == [] then 1 else rows[|rows| - 1].id + 1
  }

  predicate Exists(rows: seq<Row>, id: nat) {
    exists i :: 0 <= i < |rows| && rows[i].id == id
  }

  function Patched(row: Row, w: Write): Row
    requires w.Update?
  {
    row.(moduleName := if w.newModule.Some? then w.newModule.value else row.moduleName,
         prompt := if w.newPrompt.Some? then w.newPrompt.value else row.prompt,
         prediction := if w.newPrediction.Some? then w.newPrediction.value else row.prediction)
  }

  function PatchAll(rows: seq<Row>, w: Write): seq<Row>
    requires w.Update?
  {
    if rows == [] then []
    else [if rows[0].id == w.id then Patched(rows[0], w) else rows[0]] + PatchAll(rows[1..], w)
  }

  function Without(rows: seq<Row>, id: nat): seq<Row> {
    if rows == [] then []
    else if rows[0].id == id then Without(rows[1..], id)
    else [rows[0]] + Without(rows[1..], id)
  }

  /** A write to a missing row is refused with "not found" before anything changes. */
  predicate Accepted(rows: seq<Row>, w: Write) {
    w.Insert? || Exists(rows, w.id)
  }

  function Apply(rows: seq<Row>, w: Write): seq<Row> {
    match w
    case Insert(m, p, x) => rows + [Row(NextId(rows), m, p, x)]
    case Update(_, _, _, _) => PatchAll(rows, w)
    case Delete(id) => Without(rows, id)
  }

  // ---------------------------------------------------------------- queries

  datatype Query =
    | List(limit: nat, offset: nat, moduleName: Option<string>, search: Option<string>)
    | Get(id: nat)

  datatype Answer =
    | Page(items: seq<Row>, total: nat, limit: nat, offset: nat)
    | Detail(row: Row)
    | NotFound

  /** SQL LIKE without regard to case. */
  predicate Like(pattern: string, text: string)
    decreases |pattern| + |text|
  {
    if pattern == "" then text == ""
    else if pattern[0] == '%' then Like(pattern[1..], text) || (text != "" && Like(pattern, text[1..]))
    else text != "" && (pattern[0] == '_' || Fold(pattern[0]) == Fold(text[0])) && Like(pattern[1..], text[1..])
  }

  /** An absent filter and an empty one both filter nothing. */
  predicate Wanted(q: Query, row: Row)
    requires q.List?
  {
    && (q.moduleName.Some? && q.moduleName.value != "" ==> row.moduleName == q.moduleName.value)
    && (q.search.Some? && q.search.value != "" ==> Like("%" + q.search.value + "%", row.moduleName))
  }

  /** Matching rows, newest first. */
  function Matching(q: Query, rows: seq<Row>): seq<Row>
    requires q.List?
  {
    if rows == [] then []
    else Matching(q, rows[1..]) + (if Wanted(q, rows[0]) then [rows[0]] else [])
  }

  function Window(rows: seq<Row>, offset: nat, limit: nat): seq<Row> {
    if offset >= |rows| then []
    else if offset + limit >= |rows| then rows[offset..]
    else rows[offset..offset + limit]
  }

  function Lookup(rows: seq<Row>, id: nat): Answer {
    if rows == [] then NotFound
    else if rows[0].id == id then Detail(rows[0])
    else Lookup(rows[1..], id)
  }

  /** What the handlers compute when nothing is cached. */
  function Eval(q: Query, rows: seq<Row>): Answer {
    match q
    case List(limit, offset, _, _) =>
      var hits := Matching(q, rows);
      Page(Window(hits, offset, limit), |hits|, limit, offset)
    case Get(id) => Lookup(rows, id)
  }

  const ANY_PAGE := List(20, 0, None, None)

  /** One more row always shows in the unfiltered page: its total grows by one. */
  lemma {:induction false} InsertGrowsTotal(rows: seq<Row>, row: Row)
    ensures |Matching(ANY_PAGE, rows + [row])| == |Matching(ANY_PAGE, rows)| + 1
  {
    if rows == [] {
      assert rows + [row] == [row];
      assert Matching(ANY_PAGE, [row]) == [] + [row];
    } else {
      assert (rows + [row])[1..] == rows[1..] + [row];
      InsertGrowsTotal(rows[1..], row);
    }
  }

  // ---------------------------------------------------------------- keys

  const VERSION_KEY := "cache_version:ai_predictions"
  const LIST_PREFIX := "cache:ai:list:"
  const GET_PREFIX := "cache:ai:get:"

  /** How an optional filter is printed inside a key. */
  function Shown(s: Option<string>): string {
    if s.Some? then s.value else "None"
  }

  function Filters(q: Query): string
    requires q.List?
  {
    Shown(q.moduleName) + ":" + Shown(q.search)
  }

  function Key(v: int, q: Query): string {
    match q
    case List(limit, offset, _, _) =>
      LIST_PREFIX + (IntText(v) + ":" + (IntText(limit) + ":" + (IntText(offset) + ":" + Filters(q))))
    case Get(id) =>
      GET_PREFIX + (IntText(v) + ":" + IntText(id))
  }

  /** The two requests print the same text behind the version. */
  predicate SameRequest(p: Query, q: Query) {
    if p.List? && q.List? then
      p.limit == q.limit && p.offset == q.offset && Filters(p) == Filters(q)
    else
      p == q
  }

  ghost predicate FirstColonAt(s: string, k: nat) {
    k < |s| && s[k] == ':' && forall i :: 0 <= i < k ==> s[i] != ':'
  }

  lemma JoinedColon(a: string, x: string)
    requires ':' !in a
    ensures FirstColonAt(a + ":" + x, |a|)
  {
  }

  /** Text up to the first colon splits off uniquely. */
  lemma SplitAtColon(a: string, b: string, x: string, y: string)
    requires ':' !in a && ':' !in b
    requires a + ":" + x == b + ":" + y
    ensures a == b && x == y
  {
    JoinedColon(a, x);
    JoinedColon(b, y);
    var s, t := a + ":" + x, b + ":" + y;
    assert s[..|a|] == a && t[..|b|] == b;
    assert s[|a| + 1..] == x && t[|b| + 1..] == y;
  }

  /**
   * Keys collide exactly when version and printed request coincide. Version and
   * numbers are always recovered; two different filter pairs can still print alike.
   */
  lemma KeysMeet(v: int, p: Query, w: int, q: Query)
    ensures Key(v, p) == Key(w, q) <==> v == w && SameRequest(p, q)
  {
    if Key(v, p) == Key(w, q) {
      IntTextFacts(v, w);
      IntTextFacts(w, v);
      assert p.List? ==> Key(v, p)[9] == 'l';
      assert q.List? ==> Key(w, q)[9] == 'l';
      assert p.Get? ==> Key(v, p)[9] == 'g';
      assert q.Get? ==> Key(w, q)[9] == 'g';
      if p.List? {
        IntTextFacts(p.limit, q.limit);
        IntTextFacts(q.limit, p.limit);
        IntTextFacts(p.offset, q.offset);
        IntTextFacts(q.offset, p.offset);
        var tp := IntText(p.offset) + ":" + Filters(p);
        var tq := IntText(q.offset) + ":" + Filters(q);
        PrefixCancels(LIST_PREFIX, IntText(v) + ":" + (IntText(p.limit) + ":" + tp),
                                   IntText(w) + ":" + (IntText(q.limit) + ":" + tq));
        SplitAtColon(IntText(v), IntText(w), IntText(p.limit) + ":" + tp, IntText(q.limit) + ":" + tq);
        SplitAtColon(IntText(p.limit), IntText(q.limit), tp, tq);
        SplitAtColon(IntText(p.offset), IntText(q.offset), Filters(p), Filters(q));
      } else {
        IntTextFacts(p.id, q.id);
        PrefixCancels(GET_PREFIX, IntText(v) + ":" + IntText(p.id), IntText(w) + ":" + IntText(q.id));
        SplitAtColon(IntText(v), IntText(w), IntText(p.id), IntText(q.id));
      }
    }
  }

  lemma KeyIsNotVersionKey(v: int, q: Query)
    ensures Key(v, q) != VERSION_KEY
  {
    assert VERSION_KEY[5] == '_';
    assert Key(v, q)[5] == ':';
  }

  predicate PlainText(s: Option<string>) {
    s.Some? ==> ':' !in s.value && s.value != "None"
  }

  /** Filters that print unambiguously. */
  predicate Plain(q: Query) {
    q.List? ==> PlainText(q.moduleName) && PlainText(q.search)
  }

  /** Among plain requests a key names one request. */
  lemma PlainRequestsAreTold(p: Query, q: Query)
    requires Plain(p) && Plain(q) && SameRequest(p, q)
    ensures p == q
  {
    if p.List? && q.List? {
      assert ':' !in Shown(p.moduleName) && ':' !in Shown(q.moduleName);
      SplitAtColon(Shown(p.moduleName), Shown(q.moduleName), Shown(p.search), Shown(q.search));
    }
  }

  /** The total of an unwindowed page over one row. */
  lemma TotalOfOneRow(q: Query, row: Row)
    requires q.List?
    ensures Eval(q, [row]).total == if Wanted(q, row) then 1 else 0
  {
    assert [row][1..] == [];
    assert Matching(q, [row]) == (if Wanted(q, row) then [row] else []) + [];
  }

  /** One row that only the first request wants tells the two apart. */
  lemma OneRowTells(p: Query, q: Query, row: Row)
    requires p.List? && q.List? && Wanted(p, row) && !Wanted(q, row)
    ensures exists rows :: Eval(p, rows) != Eval(q, rows)
  {
    TotalOfOneRow(p, row);
    TotalOfOneRow(q, row);
    assert Eval(p, [row]) != Eval(q, [row]);
  }

  /** Filters holding a colon, or the word None, share a key with a request for other rows. */
  lemma AmbiguousFiltersShareAKey(v: int)
    ensures
      var p, q := List(20, 0, Some("a:b"), Some("")), List(20, 0, Some("a"), Some("b:"));
      Key(v, p) == Key(v, q) && exists rows :: Eval(p, rows) != Eval(q, rows)
    ensures
      var p, q := ANY_PAGE, List(20, 0, Some("None"), None);
      Key(v, p) == Key(v, q) && exists rows :: Eval(p, rows) != Eval(q, rows)
  {
    var p, q := List(20, 0, Some("a:b"), Some("")), List(20, 0, Some("a"), Some("b:"));
    var p', q' := ANY_PAGE, List(20, 0, Some("None"), None);
    assert Filters(p) == "a:b:" == Filters(q) && Filters(p') == Filters(q');
    var row := Row(1, "a:b", None, "");
    OneRowTells(p, q, row);
    OneRowTells(p', q', row);
  }
}
