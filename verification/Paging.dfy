/**
 * Cursor paging through a chat's messages, and the read marks it leaves, while messages
 * are sent, edited and deleted (app/api/chat.py).
 */
module Paging {
  import opened Prelude

  /** A row of chat_messages; deleting only sets a flag. */
  datatype Message = Message(id: nat, chat: int, sender: int, text: string, deleted: bool)

  /** The visible rows, in id order. */
  type Table = seq<Message>

  function LastId(t: Table): nat {
    if t == [] then 0 else t[|t| - 1].id
  }

  /** Ids are positive and increase. */
  ghost predicate Sorted(t: Table) {
    t == [] || (Sorted(t[..|t| - 1]) && LastId(t[..|t| - 1]) < t[|t| - 1].id)
  }

  lemma {:induction false} LastIsLargest(t: Table)
    requires Sorted(t)
    ensures forall m :: m in t ==> 0 < m.id <= LastId(t)
  {
    if t != [] {
      LastIsLargest(t[..|t| - 1]);
      assert t == t[..|t| - 1] + [t[|t| - 1]];
    }
  }

  lemma {:induction false} SameIdsSorted(t: Table, t': Table)
    requires Sorted(t) && |t| == |t'| && forall i :: 0 <= i < |t| ==> t'[i].id == t[i].id
    ensures Sorted(t') && LastId(t') == LastId(t)
  {
    if t != [] {
      SameIdsSorted(t[..|t| - 1], t'[..|t| - 1]);
    }
  }

  lemma SortedAppend(t: Table, m: Message)
    requires Sorted(t) && LastId(t) < m.id
    ensures Sorted(t + [m])
  {
  }

  // ---------------------------------------------------------------- the query

  /** A cursor of 0 counts as none. */
  predicate Selected(m: Message, chat: int, cursor: Option<int>) {
    m.chat == chat && (cursor.Some? && cursor.value != 0 ==> m.id < cursor.value)
  }

  /** The selected messages, newest first. */
  function Rows(t: Table, chat: int, cursor: Option<int>): seq<Message> {
    if t == [] then []
    else
      var m := t[|t| - 1];
      (if Selected(m, chat, cursor) then [m] else []) + Rows(t[..|t| - 1], chat, cursor)
  }

  function Take<T>(xs: seq<T>, n: nat): seq<T> {
    if n <= |xs| then xs[..n] else xs
  }

  function PageSize(limit: nat): nat {
    if limit > 100 then 100 else limit
  }

  function Page(t: Table, chat: int, cursor: Option<int>, limit: nat): seq<Message> {
    Take(Rows(t, chat, cursor), PageSize(limit))
  }

  ghost predicate Descending(xs: seq<Message>) {
    forall i, j :: 0 <= i < j < |xs| ==> xs[i].id > xs[j].id
  }

  ghost predicate AllSelected(xs: seq<Message>, t: Table, chat: int, cursor: Option<int>) {
    forall m :: m in xs ==> m in t && Selected(m, chat, cursor)
  }

  lemma DescendingConcat(xs: seq<Message>, ys: seq<Message>)
    requires Descending(xs) && Descending(ys)
    requires xs != [] && forall m :: m in ys ==> m.id < xs[|xs| - 1].id
    ensures Descending(xs + ys)
  {
  }

  lemma {:induction false} RowsAreSelected(t: Table, chat: int, cursor: Option<int>)
    ensures AllSelected(Rows(t, chat, cursor), t, chat, cursor)
  {
    if t != [] {
      RowsAreSelected(t[..|t| - 1], chat, cursor);
    }
  }

  lemma {:induction false} RowsDescend(t: Table, chat: int, cursor: Option<int>)
    requires Sorted(t)
    ensures Descending(Rows(t, chat, cursor))
  {
    if t != [] {
      var init, last := t[..|t| - 1], t[|t| - 1];
      LastIsLargest(init);
      RowsDescend(init, chat, cursor);
      RowsAreSelected(init, chat, cursor);
      if Selected(last, chat, cursor) {
        DescendingConcat([last], Rows(init, chat, cursor));
      } else {
        assert Rows(t, chat, cursor) == Rows(init, chat, cursor);
      }
    }
  }

  lemma {:induction false} RowsMissNothing(t: Table, chat: int, cursor: Option<int>, m: Message)
    requires m in t && Selected(m, chat, cursor)
    ensures m in Rows(t, chat, cursor)
  {
    if t[|t| - 1] != m {
      RowsMissNothing(t[..|t| - 1], chat, cursor, m);
    }
  }

  lemma PageDescends(t: Table, chat: int, cursor: Option<int>, limit: nat)
    requires Sorted(t)
    ensures Descending(Page(t, chat, cursor, limit))
    ensures AllSelected(Page(t, chat, cursor, limit), t, chat, cursor)
    ensures forall m :: m in Page(t, chat, cursor, limit) ==> 0 < m.id <= LastId(t)
  {
    RowsDescend(t, chat, cursor);
    RowsAreSelected(t, chat, cursor);
    LastIsLargest(t);
  }

  lemma LastOfPage(t: Table, chat: int, cursor: Option<int>, limit: nat)
    requires Sorted(t) && Page(t, chat, cursor, limit) != []
    ensures var page := Page(t, chat, cursor, limit);
            0 < page[|page| - 1].id <= LastId(t) && Selected(page[|page| - 1], chat, cursor)
  {
    var page := Page(t, chat, cursor, limit);
    PageDescends(t, chat, cursor, limit);
    assert page[|page| - 1] in page;
  }

  /** A selected message is on the page or older than everything on it. */
  lemma PageReaches(t: Table, chat: int, cursor: Option<int>, limit: nat, m: Message)
    requires Sorted(t) && limit >= 1 && m in t && Selected(m, chat, cursor)
    ensures var page := Page(t, chat, cursor, limit);
            page != [] && (m in page || m.id < page[|page| - 1].id)
  {
    RowsDescend(t, chat, cursor);
    RowsMissNothing(t, chat, cursor, m);
  }

  // ---------------------------------------------------------------- what happens between pages

  /**
   * Ids are handed out when a message is flushed, so messages may become visible out of
   * id order: an arrival carries any id that is not taken.
   */
  datatype Event =
    | Arrive(m: Message)
    | SoftDelete(id: nat)
    | Edit(id: nat, text: string)

  function Insert(t: Table, m: Message): Table {
    if t == [] || t[|t| - 1].id < m.id then t + [m]
    else Insert(t[..|t| - 1], m) + [t[|t| - 1]]
  }

  predicate Taken(t: Table, id: nat) {
    exists i :: 0 <= i < |t| && t[i].id == id
  }

  function Changed(m: Message, e: Event): Message {
    match e
    case Arrive(_) => m
    case SoftDelete(id) => if m.id == id then m.(deleted := true) else m
    case Edit(id, text) => if m.id == id then m.(text := text) else m
  }

  function Step(t: Table, e: Event): Table {
    match e
    case Arrive(m) => if m.id == 0 || Taken(t, m.id) then t else Insert(t, m)
    case _ => seq(|t|, i requires 0 <= i < |t| => Changed(t[i], e))
  }

  function Run(t: Table, es: seq<Event>): Table
    decreases es
  {
    if es == [] then t else Run(Step(t, es[0]), es[1..])
  }

  predicate Same(a: Message, b: Message) {
    a.id == b.id && a.chat == b.chat && a.sender == b.sender
  }

  ghost predicate Holds(t: Table, m: Message) {
    exists i :: 0 <= i < |t| && Same(t[i], m)
  }

  lemma {:induction false} InsertAddsOne(t: Table, m: Message)
    ensures forall x :: x in Insert(t, m) <==> x in t || x == m
  {
    if t != [] && t[|t| - 1].id >= m.id {
      InsertAddsOne(t[..|t| - 1], m);
      assert t == t[..|t| - 1] + [t[|t| - 1]];
    }
  }

  lemma {:induction false} InsertKeepsOrder(t: Table, m: Message)
    requires Sorted(t) && m.id > 0 && !Taken(t, m.id)
    ensures Sorted(Insert(t, m)) && LastId(Insert(t, m)) == Max(m.id, LastId(t))
  {
    if t == [] || t[|t| - 1].id < m.id {
      SortedAppend(t, m);
    } else {
      var init, last := t[..|t| - 1], t[|t| - 1];
      assert last.id > m.id;
      assert forall i :: 0 <= i < |init| ==> init[i].id == t[i].id;
      InsertKeepsOrder(init, m);
      SortedAppend(Insert(init, m), last);
    }
  }

  lemma StepSorted(t: Table, e: Event)
    requires Sorted(t)
    ensures Sorted(Step(t, e)) && LastId(t) <= LastId(Step(t, e))
  {
    if !e.Arrive? {
      SameIdsSorted(t, Step(t, e));
    } else if e.m.id != 0 && !Taken(t, e.m.id) {
      InsertKeepsOrder(t, e.m);
    }
  }

  lemma StepHolds(t: Table, e: Event, m: Message)
    requires Holds(t, m)
    ensures Holds(Step(t, e), m)
  {
    var t' := Step(t, e);
    var i :| 0 <= i < |t| && Same(t[i], m);
    if e.Arrive? {
      InsertAddsOne(t, e.m);
      assert t[i] in t';
    } else {
      assert Same(t'[i], m);
    }
  }

  lemma {:induction false} RunSorted(t: Table, es: seq<Event>)
    requires Sorted(t)
    ensures Sorted(Run(t, es))
    decreases es
  {
    if es != [] {
      StepSorted(t, es[0]);
      RunSorted(Step(t, es[0]), es[1..]);
    }
  }

  /** Rows are never lost and never move to another id, chat or sender. */
  lemma {:induction false} RunHolds(t: Table, es: seq<Event>, m: Message)
    requires Holds(t, m)
    ensures Holds(Run(t, es), m)
    decreases es
  {
    if es != [] {
      StepHolds(t, es[0], m);
      RunHolds(Step(t, es[0]), es[1..], m);
    }
  }

  // ---------------------------------------------------------------- stability

  /**
   * A client asks page after page, with the last id it got as the next cursor; gaps[k] is
   * what happens between fetches k and k + 1. It stops at an empty page.
   */
  function Follow(t: Table, gaps: seq<seq<Event>>, chat: int, cursor: Option<int>, limit: nat): seq<Message>
    decreases |gaps|
  {
    var page := Page(t, chat, cursor, limit);
    if page == [] || gaps == [] then page
    else page + Follow(Run(t, gaps[0]), gaps[1..], chat, Some(page[|page| - 1].id), limit)
  }

  predicate Finished(t: Table, gaps: seq<seq<Event>>, chat: int, cursor: Option<int>, limit: nat)
    decreases |gaps|
  {
    var page := Page(t, chat, cursor, limit);
    page == [] || (gaps != [] && Finished(Run(t, gaps[0]), gaps[1..], chat, Some(page[|page| - 1].id), limit))
  }

  /** Descending ids below the cursor, of one chat. */
  ghost predicate DescendsFrom(xs: seq<Message>, chat: int, cursor: Option<int>) {
    xs == [] || (xs[0].id > 0 && Selected(xs[0], chat, cursor) && DescendsFrom(xs[1..], chat, Some(xs[0].id)))
  }

  ghost predicate SelectedFrom(xs: seq<Message>, chat: int, cursor: Option<int>) {
    forall m :: m in xs ==> m.id > 0 && Selected(m, chat, cursor)
  }

  lemma {:induction false} DescendsFromFacts(xs: seq<Message>, chat: int, cursor: Option<int>)
    requires DescendsFrom(xs, chat, cursor)
    ensures Descending(xs) && SelectedFrom(xs, chat, cursor)
  {
    if xs != [] {
      DescendsFromFacts(xs[1..], chat, Some(xs[0].id));
      assert xs == [xs[0]] + xs[1..];
      DescendingConcat([xs[0]], xs[1..]);
    }
  }

  lemma {:induction false} FactsDescendFrom(xs: seq<Message>, chat: int, cursor: Option<int>)
    requires Descending(xs) && SelectedFrom(xs, chat, cursor)
    ensures DescendsFrom(xs, chat, cursor)
  {
    if xs != [] {
      forall m | m in xs[1..]
        ensures m.id > 0 && Selected(m, chat, Some(xs[0].id))
      {
        assert m in xs;
      }
      FactsDescendFrom(xs[1..], chat, Some(xs[0].id));
    }
  }

  lemma PageDescendsFrom(t: Table, chat: int, cursor: Option<int>, limit: nat)
    requires Sorted(t)
    ensures DescendsFrom(Page(t, chat, cursor, limit), chat, cursor)
  {
    PageDescends(t, chat, cursor, limit);
    FactsDescendFrom(Page(t, chat, cursor, limit), chat, cursor);
  }

  /** A page and what is selected behind its last message. */
  lemma PageJoins(page: seq<Message>, rest: seq<Message>, chat: int, cursor: Option<int>)
    requires page != [] && DescendsFrom(page, chat, cursor)
    requires DescendsFrom(rest, chat, Some(page[|page| - 1].id))
    ensures DescendsFrom(page + rest, chat, cursor)
  {
    DescendsFromFacts(page, chat, cursor);
    DescendsFromFacts(rest, chat, Some(page[|page| - 1].id));
    assert page[|page| - 1] in page;
    forall m | m in rest
      ensures m.id < page[|page| - 1].id && Selected(m, chat, cursor)
    {
    }
    DescendingConcat(page, rest);
    FactsDescendFrom(page + rest, chat, cursor);
  }

  lemma {:induction false} FollowDescendsFrom(
      t: Table, gaps: seq<seq<Event>>, chat: int, cursor: Option<int>, limit: nat)
    requires Sorted(t)
    ensures DescendsFrom(Follow(t, gaps, chat, cursor, limit), chat, cursor)
    decreases |gaps|
  {
    var page := Page(t, chat, cursor, limit);
    PageDescendsFrom(t, chat, cursor, limit);
    if page != [] && gaps != [] {
      var t', c := Run(t, gaps[0]), Some(page[|page| - 1].id);
      RunSorted(t, gaps[0]);
      FollowDescendsFrom(t', gaps[1..], chat, c, limit);
      PageJoins(page, Follow(t', gaps[1..], chat, c, limit), chat, cursor);
    }
  }

  lemma FollowDescends(t: Table, gaps: seq<seq<Event>>, chat: int, cursor: Option<int>, limit: nat)
    requires Sorted(t)
    ensures var got := Follow(t, gaps, chat, cursor, limit);
            Descending(got) && SelectedFrom(got, chat, cursor)
  {
    FollowDescendsFrom(t, gaps, chat, cursor, limit);
    DescendsFromFacts(Follow(t, gaps, chat, cursor, limit), chat, cursor);
  }

  lemma HoldsConcat(xs: seq<Message>, ys: seq<Message>, m: Message)
    ensures Holds(xs + ys, m) <==> Holds(xs, m) || Holds(ys, m)
  {
    if Holds(xs, m) {
      var i :| 0 <= i < |xs| && Same(xs[i], m);
      assert Same((xs + ys)[i], m);
    }
    if Holds(ys, m) {
      var i :| 0 <= i < |ys| && Same(ys[i], m);
      assert Same((xs + ys)[|xs| + i], m);
    }
  }

  lemma PageHolds(t: Table, chat: int, cursor: Option<int>, limit: nat, m: Message)
    requires Sorted(t) && limit >= 1 && Holds(t, m) && Selected(m, chat, cursor)
    ensures var page := Page(t, chat, cursor, limit);
            page != [] && (Holds(page, m) || m.id < page[|page| - 1].id)
  {
    var i :| 0 <= i < |t| && Same(t[i], m);
    var page := Page(t, chat, cursor, limit);
    PageReaches(t, chat, cursor, limit, t[i]);
    if t[i] in page {
      var k :| 0 <= k < |page| && page[k] == t[i];
    }
  }

  lemma PageIsHeld(t: Table, chat: int, cursor: Option<int>, limit: nat, m: Message)
    requires Sorted(t) && Holds(Page(t, chat, cursor, limit), m)
    ensures Holds(t, m)
  {
  }

  lemma {:induction false} FollowMissesNothing(
      t: Table, gaps: seq<seq<Event>>, chat: int, cursor: Option<int>, limit: nat, m: Message)
    requires Sorted(t) && limit >= 1 && Finished(t, gaps, chat, cursor, limit)
    requires Holds(t, m) && Selected(m, chat, cursor)
    ensures Holds(Follow(t, gaps, chat, cursor, limit), m)
    decreases |gaps|
  {
    var page := Page(t, chat, cursor, limit);
    PageHolds(t, chat, cursor, limit, m);
    if gaps != [] {
      var c := Some(page[|page| - 1].id);
      if !Holds(page, m) {
        RunSorted(t, gaps[0]);
        RunHolds(t, gaps[0], m);
        FollowMissesNothing(Run(t, gaps[0]), gaps[1..], chat, c, limit, m);
      }
      HoldsConcat(page, Follow(Run(t, gaps[0]), gaps[1..], chat, c, limit), m);
    }
  }

  /** Every page lowers the cursor, so a client that keeps asking does reach an empty page. */
  lemma {:induction false} FollowFinishes(t: Table, gaps: seq<seq<Event>>, chat: int, cursor: Option<int>, limit: nat)
    requires Sorted(t)
    requires LastId(t) <= |gaps| || (cursor.Some? && 0 < cursor.value <= |gaps| + 1)
    ensures Finished(t, gaps, chat, cursor, limit)
    decreases |gaps|
  {
    var page := Page(t, chat, cursor, limit);
    if page != [] {
      LastOfPage(t, chat, cursor, limit);
      RunSorted(t, gaps[0]);
      FollowFinishes(Run(t, gaps[0]), gaps[1..], chat, Some(page[|page| - 1].id), limit);
    }
  }

  /**
   * Whatever arrives, is edited or is deleted between the pages, the messages come strictly
   * newest first, so none twice, and each message present at the first fetch is among them;
   * only a limit of 0 makes a client miss any.
   */
  lemma CursorPagingIsStable(t: Table, gaps: seq<seq<Event>>, chat: int, limit: nat)
    requires Sorted(t) && Finished(t, gaps, chat, None, limit)
    ensures Descending(Follow(t, gaps, chat, None, limit))
    ensures (forall m :: m in t && m.chat == chat ==> Holds(Follow(t, gaps, chat, None, limit), m))
            <==> (limit >= 1 || forall m :: m in t ==> m.chat != chat)
  {
    FollowDescends(t, gaps, chat, None, limit);
    if limit >= 1 {
      forall m | m in t && m.chat == chat
        ensures Holds(Follow(t, gaps, chat, None, limit), m)
      {
        var i :| 0 <= i < |t| && t[i] == m;
        assert Same(t[i], m);
        FollowMissesNothing(t, gaps, chat, None, limit, m);
      }
    } else {
      assert Follow(t, gaps, chat, None, limit) == [];
    }
  }

  // ---------------------------------------------------------------- arrivals in id order

  ghost predicate InOrder(t: Table, es: seq<Event>)
    decreases es
  {
    es == [] || ((es[0].Arrive? ==> es[0].m.id > LastId(t)) && InOrder(Step(t, es[0]), es[1..]))
  }

  ghost predicate AllInOrder(t: Table, gaps: seq<seq<Event>>)
    decreases |gaps|
  {
    gaps == [] || (InOrder(t, gaps[0]) && AllInOrder(Run(t, gaps[0]), gaps[1..]))
  }

  lemma StepShowsNothingOld(t: Table, e: Event, m: Message)
    requires Sorted(t) && (e.Arrive? ==> e.m.id > LastId(t)) && Holds(Step(t, e), m) && m.id <= LastId(t)
    ensures Holds(t, m)
  {
    var t' := Step(t, e);
    var i :| 0 <= i < |t'| && Same(t'[i], m);
    if i < |t| {
      assert Same(t[i], m);
    }
  }

  /** Up to the newest id of the start, a run in order shows no row that was not there. */
  lemma {:induction false} NothingOldAppears(t: Table, es: seq<Event>, m: Message)
    requires Sorted(t) && InOrder(t, es) && Holds(Run(t, es), m) && m.id <= LastId(t)
    ensures Holds(t, m)
    decreases es
  {
    if es != [] {
      var t' := Step(t, es[0]);
      StepSorted(t, es[0]);
      NothingOldAppears(t', es[1..], m);
      StepShowsNothingOld(t, es[0], m);
    }
  }

  lemma {:induction false} FollowShowsOnlyOld(
      t: Table, gaps: seq<seq<Event>>, chat: int, cursor: Option<int>, limit: nat, m: Message)
    requires Sorted(t) && AllInOrder(t, gaps) && Holds(Follow(t, gaps, chat, cursor, limit), m)
    ensures Holds(t, m)
    decreases |gaps|
  {
    var page := Page(t, chat, cursor, limit);
    if Holds(page, m) {
      PageIsHeld(t, chat, cursor, limit, m);
    } else {
      var t', c := Run(t, gaps[0]), Some(page[|page| - 1].id);
      HoldsConcat(page, Follow(t', gaps[1..], chat, c, limit), m);
      RunSorted(t, gaps[0]);
      LastOfPage(t, chat, cursor, limit);
      FollowIsBelow(t', gaps[1..], chat, c, limit, m);
      FollowShowsOnlyOld(t', gaps[1..], chat, c, limit, m);
      NothingOldAppears(t, gaps[0], m);
    }
  }

  lemma FollowIsBelow(t: Table, gaps: seq<seq<Event>>, chat: int, cursor: Option<int>, limit: nat, m: Message)
    requires Sorted(t) && Holds(Follow(t, gaps, chat, cursor, limit), m)
    ensures Selected(m, chat, cursor)
  {
    var got := Follow(t, gaps, chat, cursor, limit);
    var k :| 0 <= k < |got| && Same(got[k], m);
    FollowDescends(t, gaps, chat, cursor, limit);
    assert got[k] in got;
  }

  function Ids(xs: seq<Message>): seq<nat> {
    seq(|xs|, i requires 0 <= i < |xs| => xs[i].id)
  }

  lemma {:induction false} DescendingIsUnique(xs: seq<nat>, ys: seq<nat>)
    requires forall i, j :: 0 <= i < j < |xs| ==> xs[i] > xs[j]
    requires forall i, j :: 0 <= i < j < |ys| ==> ys[i] > ys[j]
    requires forall x :: x in xs <==> x in ys
    ensures xs == ys
  {
    assert ys != [] ==> ys[0] in ys;
    if xs != [] {
      assert xs[0] in ys;
      assert ys[0] in xs;
      assert xs[0] == ys[0];
      forall x
        ensures x in xs[1..] <==> x in ys[1..]
      {
        assert x in xs <==> x == xs[0] || x in xs[1..];
        assert x in ys <==> x == ys[0] || x in ys[1..];
      }
      DescendingIsUnique(xs[1..], ys[1..]);
      assert xs == [xs[0]] + xs[1..] && ys == [ys[0]] + ys[1..];
    }
  }

  /** When messages arrive in id order, the pages together are exactly the listing of the first fetch. */
  lemma InOrderPagingIsTheListing(t: Table, gaps: seq<seq<Event>>, chat: int, limit: nat)
    requires Sorted(t) && AllInOrder(t, gaps) && limit >= 1 && Finished(t, gaps, chat, None, limit)
    ensures Ids(Follow(t, gaps, chat, None, limit)) == Ids(Rows(t, chat, None))
  {
    var got, all := Follow(t, gaps, chat, None, limit), Rows(t, chat, None);
    FollowDescends(t, gaps, chat, None, limit);
    RowsDescend(t, chat, None);
    forall x
      ensures x in Ids(got) <==> x in Ids(all)
    {
      if x in Ids(got) {
        var k :| 0 <= k < |got| && got[k].id == x;
        GotIsListed(t, gaps, chat, limit, k);
      }
      if x in Ids(all) {
        ListedIsGot(t, gaps, chat, limit, x);
      }
    }
    DescendingIsUnique(Ids(got), Ids(all));
  }

  lemma GotIsListed(t: Table, gaps: seq<seq<Event>>, chat: int, limit: nat, k: nat)
    requires Sorted(t) && AllInOrder(t, gaps) && k < |Follow(t, gaps, chat, None, limit)|
    ensures Follow(t, gaps, chat, None, limit)[k].id in Ids(Rows(t, chat, None))
  {
    var m, all := Follow(t, gaps, chat, None, limit)[k], Rows(t, chat, None);
    assert Same(m, m);
    FollowIsBelow(t, gaps, chat, None, limit, m);
    FollowShowsOnlyOld(t, gaps, chat, None, limit, m);
    var i :| 0 <= i < |t| && Same(t[i], m);
    RowsMissNothing(t, chat, None, t[i]);
    var j :| 0 <= j < |all| && all[j] == t[i];
    assert Ids(all)[j] == m.id;
  }

  lemma ListedIsGot(t: Table, gaps: seq<seq<Event>>, chat: int, limit: nat, x: nat)
    requires Sorted(t) && limit >= 1 && Finished(t, gaps, chat, None, limit) && x in Ids(Rows(t, chat, None))
    ensures x in Ids(Follow(t, gaps, chat, None, limit))
  {
    var got, all := Follow(t, gaps, chat, None, limit), Rows(t, chat, None);
    var j :| 0 <= j < |all| && all[j].id == x;
    RowsAreSelected(t, chat, None);
    assert all[j] in t;
    var i :| 0 <= i < |t| && t[i] == all[j];
    assert Same(t[i], all[j]);
    FollowMissesNothing(t, gaps, chat, None, limit, all[j]);
    var k :| 0 <= k < |got| && Same(got[k], all[j]);
    assert Ids(got)[k] == x;
  }

  // ---------------------------------------------------------------- read marks

  const MARK_CAP: nat := 50

  /** The ids on a page that others sent, newest first. */
  function Others(page: seq<Message>, user: int): seq<nat> {
    if page == [] then []
    else
      var m := page[|page| - 1];
      Others(page[..|page| - 1], user) + (if m.sender != user then [m.id] else [])
  }

  /** Opening a page marks at most the newest fifty messages of other people. */
  function Marked(page: seq<Message>, user: int): seq<nat> {
    Take(Others(page, user), MARK_CAP)
  }

  lemma {:induction false} OthersFacts(page: seq<Message>, user: int)
    requires Descending(page)
    ensures |Others(page, user)| <= |page|
    ensures forall x :: x in Others(page, user) <==>
              exists k :: 0 <= k < |page| && page[k].sender != user && page[k].id == x
    ensures forall i, j :: 0 <= i < j < |Others(page, user)| ==> Others(page, user)[i] != Others(page, user)[j]
  {
    if page != [] {
      var n := |page| - 1;
      var init, ids := page[..n], Others(page[..n], user);
      OthersFacts(init, user);
      forall i | 0 <= i < |ids|
        ensures ids[i] > page[n].id
      {
        assert ids[i] in ids;
        var k :| 0 <= k < |init| && init[k].sender != user && init[k].id == ids[i];
        assert page[k].id > page[n].id;
      }
      assert Others(page, user) == ids + (if page[n].sender != user then [page[n].id] else []);
    }
  }

  /** Every message of other people on a page is marked read exactly when the page holds at most fifty of them. */
  lemma AllMarkedIff(page: seq<Message>, user: int)
    requires Descending(page)
    ensures (forall k :: 0 <= k < |page| && page[k].sender != user ==> page[k].id in Marked(page, user))
            <==> |Others(page, user)| <= MARK_CAP
  {
    OthersFacts(page, user);
    var others := Others(page, user);
    if |others| > MARK_CAP {
      assert others[MARK_CAP] in others;
      var k :| 0 <= k < |page| && page[k].sender != user && page[k].id == others[MARK_CAP];
      assert page[k].id !in Marked(page, user);
    } else {
      assert Marked(page, user) == others;
    }
  }

  lemma PageMarks(page: seq<Message>, user: int, m: Message)
    requires Descending(page) && |page| <= MARK_CAP && Holds(page, m) && m.sender != user
    ensures m.id in MarkedSet(page, user)
  {
    var k :| 0 <= k < |page| && Same(page[k], m);
    OthersFacts(page, user);
    assert Marked(page, user) == Others(page, user);
  }

  function MarkedSet(page: seq<Message>, user: int): set<nat> {
    set x | x in Marked(page, user)
  }

  /** All that a client's pages mark. */
  function FollowMarks(t: Table, gaps: seq<seq<Event>>, chat: int, cursor: Option<int>, limit: nat, user: int): set<nat>
    decreases |gaps|
  {
    var page := Page(t, chat, cursor, limit);
    if page == [] || gaps == [] then MarkedSet(page, user)
    else MarkedSet(page, user) + FollowMarks(Run(t, gaps[0]), gaps[1..], chat, Some(page[|page| - 1].id), limit, user)
  }

  /** With pages of up to fifty, scrolling to the end marks everything others had sent before. */
  lemma {:induction false} ScrollingReadsEverything(
      t: Table, gaps: seq<seq<Event>>, chat: int, cursor: Option<int>, limit: nat, user: int, m: Message)
    requires Sorted(t) && 1 <= limit <= MARK_CAP && Finished(t, gaps, chat, cursor, limit)
    requires Holds(t, m) && Selected(m, chat, cursor) && m.sender != user
    ensures m.id in FollowMarks(t, gaps, chat, cursor, limit, user)
    decreases |gaps|
  {
    var page := Page(t, chat, cursor, limit);
    PageHolds(t, chat, cursor, limit, m);
    assert page != [] && gaps != [];
    if Holds(page, m) {
      PageDescends(t, chat, cursor, limit);
      PageMarks(page, user, m);
    } else {
      var t', c := Run(t, gaps[0]), Some(page[|page| - 1].id);
      RunSorted(t, gaps[0]);
      RunHolds(t, gaps[0], m);
      ScrollingReadsEverything(t', gaps[1..], chat, c, limit, user, m);
    }
  }

  // ---------------------------------------------------------------- pages and marks on the messages

  /** A message of the chat, older than the cursor if there is one. */
  ghost predicate Asked(m: Message, chat: int, cursor: Option<int>) {
    m.chat == chat && (cursor == None || cursor == Some(0) || m.id < cursor.value)
  }

  ghost function AskedAbove(t: Table, chat: int, cursor: Option<int>, id: int): set<Message> {
    set m | m in t && Asked(m, chat, cursor) && m.id > id
  }

  /**
   * The newest messages asked for, newest first, as many as the limit and a hundred allow:
   * the k-th has exactly k newer ones.
   */
  ghost predicate IsPageOf(t: Table, chat: int, cursor: Option<int>, limit: nat, page: seq<Message>) {
    var all := |AskedAbove(t, chat, cursor, 0)|;
    && (if all < limit && all < 100 then |page| == all else if limit < 100 then |page| == limit else |page| == 100)
    && Descending(page)
    && forall k :: 0 <= k < |page| ==>
         page[k] in t && Asked(page[k], chat, cursor) && |AskedAbove(t, chat, cursor, page[k].id)| == k
  }

  ghost function Held(xs: seq<Message>): set<Message> {
    set m | m in xs
  }

  lemma {:induction false} DescendingCounts(xs: seq<Message>)
    requires Descending(xs)
    ensures |Held(xs)| == |xs|
  {
    if xs != [] {
      var init, x := xs[..|xs| - 1], xs[|xs| - 1];
      DescendingCounts(init);
      assert xs == init + [x] && x !in init;
      assert Held(xs) == Held(init) + {x};
    }
  }

  lemma RowsAreAsked(t: Table, chat: int, cursor: Option<int>, m: Message)
    ensures m in Rows(t, chat, cursor) <==> m in t && Asked(m, chat, cursor)
  {
    RowsAreSelected(t, chat, cursor);
    if m in t && Selected(m, chat, cursor) {
      RowsMissNothing(t, chat, cursor, m);
    }
  }

  /** Of the rows, the first k are above the k-th. */
  lemma RowsAreCounted(t: Table, chat: int, cursor: Option<int>, k: nat)
    requires Sorted(t) && k < |Rows(t, chat, cursor)|
    ensures |AskedAbove(t, chat, cursor, Rows(t, chat, cursor)[k].id)| == k
  {
    var rows := Rows(t, chat, cursor);
    RowsDescend(t, chat, cursor);
    DescendingCounts(rows[..k]);
    forall m
      ensures m in AskedAbove(t, chat, cursor, rows[k].id) <==> m in rows[..k]
    {
      RowsAreAsked(t, chat, cursor, m);
      if m in rows {
        var i :| 0 <= i < |rows| && rows[i] == m;
      }
    }
    assert AskedAbove(t, chat, cursor, rows[k].id) == Held(rows[..k]);
  }

  lemma RowsAreAll(t: Table, chat: int, cursor: Option<int>)
    requires Sorted(t)
    ensures |Rows(t, chat, cursor)| == |AskedAbove(t, chat, cursor, 0)|
  {
    RowsDescend(t, chat, cursor);
    LastIsLargest(t);
    DescendingCounts(Rows(t, chat, cursor));
    forall m
      ensures m in AskedAbove(t, chat, cursor, 0) <==> m in Rows(t, chat, cursor)
    {
      RowsAreAsked(t, chat, cursor, m);
    }
    assert AskedAbove(t, chat, cursor, 0) == Held(Rows(t, chat, cursor));
  }

  lemma PageHoldsTheNewest(t: Table, chat: int, cursor: Option<int>, limit: nat)
    requires Sorted(t)
    ensures IsPageOf(t, chat, cursor, limit, Page(t, chat, cursor, limit))
  {
    var rows, page := Rows(t, chat, cursor), Page(t, chat, cursor, limit);
    RowsAreAll(t, chat, cursor);
    RowsDescend(t, chat, cursor);
    forall k | 0 <= k < |page|
      ensures page[k] in t && Asked(page[k], chat, cursor) && |AskedAbove(t, chat, cursor, page[k].id)| == k
    {
      RowsAreAsked(t, chat, cursor, page[k]);
      RowsAreCounted(t, chat, cursor, k);
    }
  }

  /** The ids of newer messages of other people on the page. */
  ghost function NewerOfOthers(page: seq<Message>, user: int, id: nat): set<nat> {
    set m | m in page && m.sender != user && m.id > id :: m.id
  }

  /** The message is somebody else's, and among the newest fifty such on the page. */
  ghost predicate GetsMarked(page: seq<Message>, user: int, id: nat) {
    (exists m :: m in page && m.id == id && m.sender != user) && |NewerOfOthers(page, user, id)| < 50
  }

  ghost function IdsHeld(xs: seq<nat>): set<nat> {
    set x | x in xs
  }

  ghost predicate Falls(xs: seq<nat>) {
    forall i, j :: 0 <= i < j < |xs| ==> xs[i] > xs[j]
  }

  lemma {:induction false} FallingIdsCount(xs: seq<nat>)
    requires Falls(xs)
    ensures |IdsHeld(xs)| == |xs|
  {
    if xs != [] {
      var init, x := xs[..|xs| - 1], xs[|xs| - 1];
      FallingIdsCount(init);
      assert xs == init + [x] && x !in init;
      assert IdsHeld(xs) == IdsHeld(init) + {x};
    }
  }

  lemma OthersAreOnPage(page: seq<Message>, user: int, x: nat)
    requires Descending(page)
    ensures x in Others(page, user) <==> exists m :: m in page && m.sender != user && m.id == x
  {
    OthersFacts(page, user);
    if m :| m in page && m.sender != user && m.id == x {
      var i :| 0 <= i < |page| && page[i] == m;
    }
  }

  /** The ids before the k-th are those of the newer messages of others. */
  lemma OthersAreCounted(page: seq<Message>, user: int, k: nat)
    requires Descending(page) && k < |Others(page, user)|
    ensures |NewerOfOthers(page, user, Others(page, user)[k])| == k
  {
    var ids := Others(page, user);
    OthersFall(page, user);
    FallingIdsCount(ids[..k]);
    forall x: nat
      ensures x in NewerOfOthers(page, user, ids[k]) <==> x in IdsHeld(ids[..k])
    {
      OthersAreOnPage(page, user, x);
      if x in ids {
        var j :| 0 <= j < |ids| && ids[j] == x;
      }
    }
    assert NewerOfOthers(page, user, ids[k]) == IdsHeld(ids[..k]);
  }

  lemma {:induction false} OthersFall(page: seq<Message>, user: int)
    requires Descending(page)
    ensures Falls(Others(page, user))
  {
    if page != [] {
      var n := |page| - 1;
      var ids := Others(page[..n], user);
      OthersFall(page[..n], user);
      OthersFacts(page[..n], user);
      forall i | 0 <= i < |ids|
        ensures ids[i] > page[n].id
      {
        assert ids[i] in ids;
        var k :| 0 <= k < n && page[..n][k].sender != user && page[..n][k].id == ids[i];
        assert page[k].id > page[n].id;
      }
      assert Others(page, user) == ids + (if page[n].sender != user then [page[n].id] else []);
    }
  }

  /** Exactly these are marked. */
  lemma MarkedIff(page: seq<Message>, user: int, id: nat)
    requires Descending(page)
    ensures id in Marked(page, user) <==> GetsMarked(page, user, id)
  {
    var ids := Others(page, user);
    OthersFall(page, user);
    OthersAreOnPage(page, user, id);
    assert Marked(page, user) == if MARK_CAP <= |ids| then ids[..MARK_CAP] else ids;
    if id in ids {
      var k :| 0 <= k < |ids| && ids[k] == id;
      OthersAreCounted(page, user, k);
      if k < MARK_CAP {
        assert Marked(page, user)[k] == id;
      }
    }
  }

  // ---------------------------------------------------------------- the handlers

  datatype Shown = Shown(id: nat, sender: int, text: string, deleted: bool)

  function Show(m: Message): Shown {
    Shown(m.id, m.sender, if m.deleted then "[deleted]" else m.text, m.deleted)
  }

  datatype Delivery = Delivery(deliveredAt: Option<int>, readAt: Option<int>)

  type Mark = (nat, int)

  function Filled(at: Option<int>, now: int): Option<int> {
    if at.Some? then at else Some(now)
  }

  /** The delivery row a marked message ends up with: times already set stay. */
  function Read(d: map<Mark, Delivery>, k: Mark, now: int): Delivery {
    if k in d then Delivery(Filled(d[k].deliveredAt, now), Filled(d[k].readAt, now)) else Delivery(Some(now), Some(now))
  }

  /** Times that were set stay, the others become now. */
  ghost function TimesKept(d: Delivery, now: int): Delivery {
    match d
    case Delivery(None, None) => Delivery(Some(now), Some(now))
    case Delivery(None, Some(r)) => Delivery(Some(now), Some(r))
    case Delivery(Some(t), None) => Delivery(Some(t), Some(now))
    case Delivery(Some(t), Some(r)) => d
  }

  /** What is shown of a message: its text only while it is not deleted. */
  ghost predicate Shows(m: Message, x: Shown) {
    && x.id == m.id && x.sender == m.sender && x.deleted == m.deleted
    && x.text == if m.deleted then "[deleted]" else m.text
  }

  /** The page that was shown, and the marks: exactly the newest fifty of others, for the reader alone. */
  ghost predicate Opened(page: seq<Message>, out: seq<Shown>, user: int, before: set<Mark>, after: set<Mark>) {
    && |out| == |page| && (forall k :: 0 <= k < |out| ==> Shows(page[k], out[k]))
    && forall k: Mark :: k in after <==> k in before || (k.1 == user && GetsMarked(page, user, k.0))
  }

  class MessageTable {
    var rows: Table
    var deliveries: map<Mark, Delivery>
    var readBy: set<Mark>

    ghost predicate Valid()
      reads this
    {
      Sorted(rows)
    }

    constructor ()
      ensures Valid() && rows == [] && deliveries == map[] && readBy == {}
    {
      rows, deliveries, readBy := [], map[], {};
    }

    method SendMessage(chat: int, sender: int, text: string)
      requires Valid()
      modifies this
      ensures Valid() && rows == Step(old(rows), Arrive(Message(LastId(old(rows)) + 1, chat, sender, text, false)))
      ensures readBy == old(readBy) + {(LastId(old(rows)) + 1, sender)} && deliveries == old(deliveries)
      ensures |rows| == |old(rows)| + 1 && rows[..|old(rows)|] == old(rows)
      ensures var m := rows[|old(rows)|];
              && m.chat == chat && m.sender == sender && m.text == text && !m.deleted
              && (forall x :: x in old(rows) ==> x.id < m.id) && (m.id, sender) in readBy
    {
      var id := LastId(rows) + 1;
      LastIsLargest(rows);
      SortedAppend(rows, Message(id, chat, sender, text, false));
      rows := rows + [Message(id, chat, sender, text, false)];
      readBy := readBy + {(id, sender)};
    }

    /** The soft delete of one row. */
    method DeleteMessage(id: nat)
      requires Valid()
      modifies this`rows
      ensures Valid() && rows == Step(old(rows), SoftDelete(id))
      ensures |rows| == |old(rows)| && forall k :: 0 <= k < |rows| ==>
                rows[k] == if old(rows)[k].id == id then old(rows)[k].(deleted := true) else old(rows)[k]
    {
      for i := 0 to |rows|
        invariant |rows| == |old(rows)|
        invariant forall k :: 0 <= k < |rows| ==>
                    rows[k] == if k < i then Changed(old(rows)[k], SoftDelete(id)) else old(rows)[k]
      {
        if rows[i].id == id {
          rows := rows[i := rows[i].(deleted := true)];
        }
      }
      SameIdsSorted(old(rows), rows);
    }

    /** Ids on the page sent by others, cut at fifty. */
    method MessageIds(page: seq<Message>, user: int) returns (ids: seq<nat>)
      ensures ids == Marked(page, user)
    {
      ids := [];
      for i := 0 to |page|
        invariant ids == Others(page[..i], user)
      {
        assert page[..i + 1][..i] == page[..i];
        if page[i].sender != user {
          ids := ids + [page[i].id];
        }
      }
      assert page[..|page|] == page;
      ids := if MARK_CAP <= |ids| then ids[..MARK_CAP] else ids;
    }

    /** Delivery rows and read rows of the given messages, for one user. */
    method MarkRead(ids: seq<nat>, user: int, now: int)
      modifies this`deliveries, this`readBy
      ensures forall k :: k in deliveries <==> k in old(deliveries) || (k.1 == user && k.0 in ids)
      ensures forall k :: k in deliveries ==>
                deliveries[k] == if k.1 == user && k.0 in ids then Read(old(deliveries), k, now) else old(deliveries)[k]
      ensures forall k :: k in readBy <==> k in old(readBy) || (k.1 == user && k.0 in ids)
      ensures forall k :: k in deliveries && k.1 == user && k.0 in ids ==>
                deliveries[k] == if k !in old(deliveries) then Delivery(Some(now), Some(now))
                                 else TimesKept(old(deliveries)[k], now)
    {
      for i := 0 to |ids|
        invariant forall k :: k in deliveries <==> k in old(deliveries) || (k.1 == user && k.0 in ids[..i])
        invariant forall k :: k in deliveries ==>
                    deliveries[k] == if k.1 == user && k.0 in ids[..i] then Read(old(deliveries), k, now)
                                     else old(deliveries)[k]
        invariant forall k :: k in readBy <==> k in old(readBy) || (k.1 == user && k.0 in ids[..i])
      {
        var key := (ids[i], user);
        if key in deliveries {
          var d := deliveries[key];
          deliveries := deliveries[key := Delivery(Filled(d.deliveredAt, now), Filled(d.readAt, now))];
        } else {
          deliveries := deliveries[key := Delivery(Some(now), Some(now))];
        }
        readBy := readBy + {key};
        assert ids[..i + 1] == ids[..i] + [ids[i]];
      }
      assert ids[..|ids|] == ids;
    }

    /** One page, deleted messages blanked out, and the marks that opening it leaves. */
    method GetMessages(chat: int, user: int, limit: nat, cursor: Option<int>, now: int) returns (out: seq<Shown>)
      requires Valid()
      modifies this`deliveries, this`readBy
      ensures Valid()
      ensures var page := Page(rows, chat, cursor, limit);
              |out| == |page| && forall k :: 0 <= k < |out| ==> out[k] == Show(page[k])
      ensures var ids := Marked(Page(rows, chat, cursor, limit), user);
              && (forall k :: k in readBy <==> k in old(readBy) || (k.1 == user && k.0 in ids))
              && (forall k :: k in deliveries <==> k in old(deliveries) || (k.1 == user && k.0 in ids))
              && (forall k :: k in deliveries ==>
                    deliveries[k] == if k.1 == user && k.0 in ids then Read(old(deliveries), k, now)
                                     else old(deliveries)[k])
      ensures exists page :: IsPageOf(rows, chat, cursor, limit, page)
                             && Opened(page, out, user, old(readBy), readBy)
    {
      var page := Page(rows, chat, cursor, limit);
      PageHoldsTheNewest(rows, chat, cursor, limit);
      out := [];
      for i := 0 to |page|
        invariant |out| == i && forall k :: 0 <= k < i ==> out[k] == Show(page[k])
      {
        out := out + [Show(page[i])];
      }
      var ids := MessageIds(page, user);
      MarkRead(ids, user, now);
      forall k: Mark
        ensures k.0 in ids <==> GetsMarked(page, user, k.0)
      {
        MarkedIff(page, user, k.0);
      }
      assert Opened(page, out, user, old(readBy), readBy);
    }
  }
}
