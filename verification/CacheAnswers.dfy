/** What the answers of app/api/ai.py hold and what its writes do, told on the rows themselves. */
module CacheAnswers {
  import opened Prelude
  import opened CacheKeys
  import opened Text

  /** Ids increase down the table. */
  ghost predicate Ascending(rows: seq<Row>) {
    forall i, j :: 0 <= i < j < |rows| ==> rows[i].id < rows[j].id
  }

  // ---------------------------------------------------------------- LIKE

  /** The letters of the pattern, `_` standing for any, are those of the text from position k on. */
  ghost predicate LettersAt(p: string, text: string, k: nat) {
    k + |p| <= |text| && forall i :: 0 <= i < |p| ==> p[i] == '_' || SameLetter(p[i], text[k + i])
  }

  /** A pattern that begins without `%` is compared letter by letter up to there. */
  lemma {:induction false} LikeOfLetters(p: string, q: string, text: string)
    requires '%' !in p
    ensures Like(p + q, text) <==> LettersAt(p, text, 0) && Like(q, text[|p|..])
    decreases |p|
  {
    if p == "" {
      assert p + q == q && text[0..] == text;
    } else {
      assert (p + q)[1..] == p[1..] + q && (p + q)[0] == p[0];
      if text != "" {
        FoldMeans(p[0], text[0]);
        LikeOfLetters(p[1..], q, text[1..]);
        if |p| <= |text| {
          assert text[1..][|p| - 1..] == text[|p|..];
          LettersFollow(p, text);
        }
      }
    }
  }

  lemma LettersFollow(p: string, text: string)
    requires p != "" && |p| <= |text|
    ensures LettersAt(p, text, 0) <==> (p[0] == '_' || SameLetter(p[0], text[0])) && LettersAt(p[1..], text[1..], 0)
  {
    assert forall i :: 0 <= i < |p| - 1 ==> p[1..][i] == p[i + 1] && text[1..][i] == text[i + 1];
    if (p[0] == '_' || SameLetter(p[0], text[0])) && LettersAt(p[1..], text[1..], 0) {
      forall i | 0 <= i < |p|
        ensures p[i] == '_' || SameLetter(p[i], text[i])
      {
        if i > 0 {
          assert p[1..][i - 1] == '_' || SameLetter(p[1..][i - 1], text[1..][i - 1]);
        }
      }
    }
  }

  /** The rest of the pattern may begin anywhere behind a `%`. */
  lemma {:induction false} LikeOfPercent(q: string, text: string)
    ensures Like("%" + q, text) <==> exists k :: 0 <= k <= |text| && Like(q, text[k..])
    decreases |text|
  {
    assert ("%" + q)[1..] == q && text[0..] == text;
    if text != "" {
      LikeOfPercent(q, text[1..]);
      if k :| 0 <= k < |text| && Like(q, text[1..][k..]) {
        assert text[1..][k..] == text[k + 1..];
      }
      if k :| 0 < k <= |text| && Like(q, text[k..]) {
        assert text[1..][k - 1..] == text[k..];
      }
    }
  }

  /** A search for letters finds the module names that hold them somewhere, in either case. */
  lemma SearchFinds(search: string, text: string)
    requires '%' !in search
    ensures Like("%" + search + "%", text) <==> exists k: nat :: LettersAt(search, text, k)
  {
    assert "%" + search + "%" == "%" + (search + "%");
    LikeOfPercent(search + "%", text);
    forall k | 0 <= k <= |text|
      ensures Like(search + "%", text[k..]) <==> LettersAt(search, text, k)
    {
      LikeOfLetters(search, "%", text[k..]);
      if LettersAt(search, text[k..], 0) {
        var rest := text[k..][|search|..];
        LikeOfPercent("", rest);
        assert Like("", rest[|rest|..]) && "%" + "" == "%";
        assert LettersAt(search, text, k);
      } else {
        assert !LettersAt(search, text, k);
      }
    }
  }

  // ---------------------------------------------------------------- answers

  /** The row passes the filters that are given. */
  ghost predicate Passes(moduleName: Option<string>, search: Option<string>, row: Row) {
    && (moduleName.Some? && moduleName.value != "" ==> row.moduleName == moduleName.value)
    && (search.Some? && search.value != "" ==> Like("%" + search.value + "%", row.moduleName))
  }

  /** The rows that pass and are newer than the given id. */
  ghost function Newer(rows: seq<Row>, moduleName: Option<string>, search: Option<string>, id: nat): set<Row> {
    set r | r in rows && Passes(moduleName, search, r) && r.id > id
  }

  /**
   * A page of the rows that pass, newest first: the total counts them all, the k-th item has
   * exactly offset + k newer ones, and only the end of the rows makes a page shorter than its limit.
   */
  ghost predicate IsPage(rows: seq<Row>, limit: nat, offset: nat, moduleName: Option<string>, search: Option<string>,
                         items: seq<Row>, total: nat)
  {
    && total == |set r | r in rows && Passes(moduleName, search, r)|
    && |items| == (if total <= offset then 0 else if total - offset < limit then total - offset else limit)
    && (forall j, k :: 0 <= j < k < |items| ==> items[j].id > items[k].id)
    && forall k :: 0 <= k < |items| ==>
         && items[k] in rows && Passes(moduleName, search, items[k])
         && |Newer(rows, moduleName, search, items[k].id)| == offset + k
  }

  /** What a request is answered with on these rows. */
  ghost predicate Tells(rows: seq<Row>, q: Query, a: Answer) {
    match q
    case List(limit, offset, moduleName, search) =>
      && a.Page? && a.limit == limit && a.offset == offset
      && IsPage(rows, limit, offset, moduleName, search, a.items, a.total)
    case Get(id) =>
      if exists r :: r in rows && r.id == id then a.Detail? && a.row in rows && a.row.id == id else a.NotFound?
  }

  ghost predicate Falling(xs: seq<Row>) {
    forall i, j :: 0 <= i < j < |xs| ==> xs[i].id > xs[j].id
  }

  lemma FallingAppend(xs: seq<Row>, x: Row)
    requires Falling(xs) && forall r :: r in xs ==> r.id > x.id
    ensures Falling(xs + [x])
  {
  }

  lemma {:induction false} MatchingHolds(q: Query, rows: seq<Row>, r: Row)
    requires q.List?
    ensures r in Matching(q, rows) <==> r in rows && Passes(q.moduleName, q.search, r)
  {
    if rows != [] {
      MatchingHolds(q, rows[1..], r);
      assert rows == [rows[0]] + rows[1..];
    }
  }

  lemma TailAscends(rows: seq<Row>, r: Row)
    requires Ascending(rows) && rows != [] && r in rows[1..]
    ensures Ascending(rows[1..]) && rows[0].id < r.id
  {
    var i :| 0 <= i < |rows[1..]| && rows[1..][i] == r;
    assert rows[i + 1] == r;
  }

  lemma {:induction false} MatchingFalls(q: Query, rows: seq<Row>)
    requires q.List? && Ascending(rows)
    ensures Falling(Matching(q, rows))
  {
    if rows != [] {
      var tail := Matching(q, rows[1..]);
      MatchingFalls(q, rows[1..]);
      forall r | r in tail
        ensures r.id > rows[0].id
      {
        MatchingHolds(q, rows[1..], r);
        TailAscends(rows, r);
      }
      if Wanted(q, rows[0]) {
        FallingAppend(tail, rows[0]);
      } else {
        assert Matching(q, rows) == tail;
      }
    }
  }

  ghost function Held(xs: seq<Row>): set<Row> {
    set r | r in xs
  }

  /** Falling rows are all different. */
  lemma {:induction false} FallingCounts(xs: seq<Row>)
    requires Falling(xs)
    ensures |Held(xs)| == |xs|
  {
    if xs != [] {
      var init, x := xs[..|xs| - 1], xs[|xs| - 1];
      FallingCounts(init);
      assert xs == init + [x] && x !in init;
      assert Held(xs) == Held(init) + {x};
    }
  }

  /** The hits above the m-th are the m before it. */
  lemma HitsAreCounted(q: Query, rows: seq<Row>, m: nat)
    requires q.List? && Ascending(rows) && m < |Matching(q, rows)|
    ensures |Newer(rows, q.moduleName, q.search, Matching(q, rows)[m].id)| == m
  {
    var hits := Matching(q, rows);
    MatchingFalls(q, rows);
    FallingCounts(hits[..m]);
    forall r
      ensures r in Newer(rows, q.moduleName, q.search, hits[m].id) <==> r in hits[..m]
    {
      MatchingHolds(q, rows, r);
      if r in hits {
        var k :| 0 <= k < |hits| && hits[k] == r;
      }
    }
    assert Newer(rows, q.moduleName, q.search, hits[m].id) == Held(hits[..m]);
  }

  lemma HitsAreAll(q: Query, rows: seq<Row>)
    requires q.List? && Ascending(rows)
    ensures |Matching(q, rows)| == |set r | r in rows && Passes(q.moduleName, q.search, r)|
  {
    MatchingFalls(q, rows);
    FallingCounts(Matching(q, rows));
    forall r
      ensures r in Held(Matching(q, rows)) <==> r in rows && Passes(q.moduleName, q.search, r)
    {
      MatchingHolds(q, rows, r);
    }
    assert Held(Matching(q, rows)) == set r | r in rows && Passes(q.moduleName, q.search, r);
  }

  lemma WindowMeans(hits: seq<Row>, offset: nat, limit: nat)
    ensures var w, n := Window(hits, offset, limit), |hits|;
            && |w| == (if n <= offset then 0 else if n - offset < limit then n - offset else limit)
            && forall k :: 0 <= k < |w| ==> w[k] == hits[offset + k]
  {
  }

  lemma PageTells(rows: seq<Row>, q: Query)
    requires q.List? && Ascending(rows)
    ensures Tells(rows, q, Eval(q, rows))
  {
    var hits := Matching(q, rows);
    var page := Window(hits, q.offset, q.limit);
    HitsAreAll(q, rows);
    MatchingFalls(q, rows);
    WindowMeans(hits, q.offset, q.limit);
    forall k | 0 <= k < |page|
      ensures page[k] in rows && Passes(q.moduleName, q.search, page[k])
      ensures |Newer(rows, q.moduleName, q.search, page[k].id)| == q.offset + k
    {
      MatchingHolds(q, rows, page[k]);
      HitsAreCounted(q, rows, q.offset + k);
    }
  }

  lemma {:induction false} LookupFacts(rows: seq<Row>, id: nat)
    ensures Tells(rows, Get(id), Lookup(rows, id))
  {
    if rows != [] {
      LookupFacts(rows[1..], id);
      assert rows == [rows[0]] + rows[1..];
    }
  }

  /** What the handlers compute is what the rows tell. */
  lemma EvalTells(rows: seq<Row>, q: Query)
    requires Ascending(rows)
    ensures Tells(rows, q, Eval(q, rows))
  {
    if q.List? {
      PageTells(rows, q);
    } else {
      LookupFacts(rows, q.id);
    }
  }

  // ---------------------------------------------------------------- writes

  /** The fields that an update carries are written, the others stay. */
  ghost predicate UpdatedRow(row: Row, w: Write, row': Row)
    requires w.Update?
  {
    && row'.id == row.id
    && row'.moduleName == (match w.newModule case Some(m) => m case None => row.moduleName)
    && row'.prompt == (match w.newPrompt case Some(p) => p case None => row.prompt)
    && row'.prediction == (match w.newPrediction case Some(x) => x case None => row.prediction)
  }

  ghost predicate Writes(rows: seq<Row>, w: Write, rows': seq<Row>) {
    match w
    case Insert(m, p, x) =>
      && |rows'| == |rows| + 1 && rows'[..|rows|] == rows
      && rows'[|rows|].moduleName == m && rows'[|rows|].prompt == p && rows'[|rows|].prediction == x
      && forall r :: r in rows ==> r.id < rows'[|rows|].id
    case Update(id, _, _, _) =>
      && |rows'| == |rows|
      && forall i :: 0 <= i < |rows| ==>
           if rows[i].id == id then UpdatedRow(rows[i], w, rows'[i]) else rows'[i] == rows[i]
    case Delete(id) => forall r :: r in rows' <==> r in rows && r.id != id
  }

  lemma {:induction false} PatchFacts(rows: seq<Row>, w: Write)
    requires w.Update?
    ensures Writes(rows, w, PatchAll(rows, w))
    ensures forall i :: 0 <= i < |rows| ==> PatchAll(rows, w)[i].id == rows[i].id
  {
    if rows != [] {
      PatchFacts(rows[1..], w);
    }
  }

  lemma {:induction false} WithoutFacts(rows: seq<Row>, id: nat)
    requires Ascending(rows)
    ensures Ascending(Without(rows, id)) && forall r :: r in Without(rows, id) <==> r in rows && r.id != id
  {
    if rows != [] {
      WithoutFacts(rows[1..], id);
      assert rows == [rows[0]] + rows[1..];
      forall r | r in Without(rows[1..], id)
        ensures rows[0].id < r.id
      {
        TailAscends(rows, r);
      }
    }
  }

  /** An accepted write does to the rows what it says, and keeps their order. */
  lemma ApplyWrites(rows: seq<Row>, w: Write)
    requires Ascending(rows)
    ensures Ascending(Apply(rows, w)) && Writes(rows, w, Apply(rows, w))
    ensures Accepted(rows, w) <==> w.Insert? || exists r :: r in rows && r.id == w.id
  {
    match w
    case Insert(_, _, _) =>
    case Update(_, _, _, _) => PatchFacts(rows, w);
    case Delete(id) => WithoutFacts(rows, id);
  }
}
