/**
 * BOQ versioning of app/api/boq.py: groups with a current version, items of which
 * the current version is latest, and history that no handler touches again.
 * An item's id is its position in the table.
 */
module Boq {
  import opened Prelude
  import opened Money

  datatype ItemStatus = Active | Deleted | OtherStatus(text: string)

  datatype ApprovalStatus = Draft | Pending | Approved | Rejected

  /** A stored row: quantity has three decimals, unit cost two, and the costs are cents. */
  datatype Item = Item(project: int, group: int, version: int, latest: bool, name: string, category: string,
                       quantity: real, unitCost: real, totalCost: int, actualCost: int, variance: int,
                       status: ItemStatus, approval: ApprovalStatus)

  datatype Group = Group(project: int, name: string, current: int)

  datatype Book = Book(groups: map<int, Group>, nextGroup: int, items: seq<Item>)

  const EMPTY := Book(map[], 1, [])

  datatype Payload = Payload(name: string, category: string, quantity: real, unitCost: real, status: ItemStatus)

  datatype Patch = Patch(name: Option<string>, category: Option<string>, quantity: Option<real>,
                         unitCost: Option<real>, status: Option<ItemStatus>)

  /** The exact cost in cents. */
  function Cost(quantity: real, unitCost: real): real {
    quantity * unitCost * 100.0
  }

  /** Exact total and variance, in cents. */
  function CalculateCost(quantity: real, unitCost: real, actual: int): (real, real) {
    (Cost(quantity, unitCost), Cost(quantity, unitCost) - actual as real)
  }

  predicate PayloadOk(p: Payload) {
    p.name != "" && p.quantity > 0.0 && p.unitCost > 0.0
  }

  function NewItem(project: int, group: int, version: int, p: Payload): Item {
    var (total, variance) := CalculateCost(p.quantity, p.unitCost, 0);
    Item(project, group, version, true, p.name, p.category, Thousandths(p.quantity), Hundredths(p.unitCost),
         Stored(total), 0, Stored(variance), p.status, Draft)
  }

  // ---------------------------------------------------------------- constraints and queries

  /** The unique key of the table: group, version, name and category. */
  predicate SameKey(a: Item, b: Item) {
    a.group == b.group && a.version == b.version && a.name == b.name && a.category == b.category
  }

  predicate KeyFree(items: seq<Item>, x: Item) {
    forall i :: 0 <= i < |items| ==> !SameKey(items[i], x)
  }

  predicate UniqueKeys(items: seq<Item>) {
    forall i, j :: 0 <= i < j < |items| ==> !SameKey(items[i], items[j])
  }

  predicate Live(x: Item, group: int) {
    x.group == group && x.latest && !x.status.Deleted?
  }

  /** The first latest, undeleted item of the group. */
  function Parent(items: seq<Item>, group: int): Option<nat> {
    if items == [] then None
    else
      var n := |items| - 1;
      var p := Parent(items[..n], group);
      if p.Some? then p else if Live(items[n], group) then Some(n) else None
  }

  lemma {:induction false} ParentIsLive(items: seq<Item>, group: int)
    requires Parent(items, group).Some?
    ensures Parent(items, group).value < |items| && Live(items[Parent(items, group).value], group)
  {
    if Parent(items[..|items| - 1], group).Some? {
      ParentIsLive(items[..|items| - 1], group);
    }
  }

  // ---------------------------------------------------------------- handlers

  function CreateBoq(s: Book, project: int, p: Payload): Option<Book> {
    if !PayloadOk(p) then None
    else Some(Book(s.groups[s.nextGroup := Group(project, p.name, 1)], s.nextGroup + 1,
                   s.items + [NewItem(project, s.nextGroup, 1, p)]))
  }

  /** Insert new items behind a parent; any violated key rolls everything back. */
  function Insert(items: seq<Item>, parent: Item, ps: seq<Payload>): Option<seq<Item>>
    decreases ps
  {
    if ps == [] then Some(items)
    else
      var x := NewItem(parent.project, parent.group, parent.version, ps[0]);
      if !PayloadOk(ps[0]) || !KeyFree(items, x) then None
      else Insert(items + [x], parent, ps[1..])
  }

  /** add_item with one payload, bulk_add_items with many. */
  function AddItems(s: Book, group: int, ps: seq<Payload>): Option<Book> {
    var parent := Parent(s.items, group);
    if parent.None? || parent.value >= |s.items| || s.items[parent.value].approval.Approved? then None
    else
      match Insert(s.items, s.items[parent.value], ps)
      case None => None
      case Some(items) => Some(s.(items := items))
  }

  predicate Editable(items: seq<Item>, i: nat) {
    i < |items| && !items[i].status.Deleted? && items[i].latest && !items[i].approval.Approved?
  }

  function Patched(x: Item, p: Patch): Item {
    var quantity, unitCost := Or(p.quantity, x.quantity), Or(p.unitCost, x.unitCost);
    var (total, variance) := CalculateCost(quantity, unitCost, x.actualCost);
    x.(name := Or(p.name, x.name), category := Or(p.category, x.category), status := Or(p.status, x.status),
       quantity := Thousandths(quantity), unitCost := Hundredths(unitCost),
       totalCost := Stored(total), variance := Stored(variance))
  }

  predicate PatchOk(p: Patch) {
    Or(p.name, "x") != "" && Or(p.quantity, 1.0) > 0.0 && Or(p.unitCost, 1.0) > 0.0
  }

  predicate KeyFreeBut(items: seq<Item>, i: nat, x: Item) {
    forall j :: 0 <= j < |items| && j != i ==> !SameKey(items[j], x)
  }

  /** update_boq and update_item have the same body. */
  function UpdateItem(s: Book, i: nat, p: Patch): Option<Book> {
    if !Editable(s.items, i) || !PatchOk(p) || !KeyFreeBut(s.items, i, Patched(s.items[i], p)) then None
    else Some(s.(items := s.items[i := Patched(s.items[i], p)]))
  }

  /** delete_boq and delete_item have the same body. */
  function DeleteItem(s: Book, i: nat): Option<Book> {
    if !Editable(s.items, i) then None
    else Some(s.(items := s.items[i := s.items[i].(status := Deleted)]))
  }

  function Retired(x: Item, group: int, version: int): Item {
    if x.group == group && x.version == version && x.latest then x.(latest := false) else x
  }

  function RetireAll(items: seq<Item>, group: int, version: int): seq<Item> {
    if items == [] then []
    else RetireAll(items[..|items| - 1], group, version) + [Retired(items[|items| - 1], group, version)]
  }

  predicate Copied(x: Item, group: int, version: int) {
    x.group == group && x.version == version && !x.status.Deleted?
  }

  function Copy(x: Item, group: int, version: int): Item {
    x.(group := group, version := version, latest := true, actualCost := 0, variance := 0,
       status := Active, approval := Draft)
  }

  /** Copies of the version's undeleted rows, in row order. */
  function Copies(items: seq<Item>, group: int, version: int, newVersion: int): seq<Item> {
    if items == [] then []
    else
      var x := items[|items| - 1];
      Copies(items[..|items| - 1], group, version, newVersion) +
      (if Copied(x, group, version) then [Copy(x, group, newVersion)] else [])
  }

  /** `base` is the row an unordered query returned: any latest undeleted row of the group. */
  predicate IsBase(s: Book, group: int, base: nat) {
    base < |s.items| && Live(s.items[base], group)
  }

  function CreateVersion(s: Book, group: int, base: nat): Option<Book> {
    if !IsBase(s, group, base) || !s.items[base].approval.Approved? || group !in s.groups then None
    else
      var old' := s.items[base].version;
      var newVersion := s.groups[group].current + 1;
      var retired := RetireAll(s.items, group, old');
      Some(s.(groups := s.groups[group := s.groups[group].(current := newVersion, name := s.items[base].name)],
              items := retired + Copies(retired, group, old', newVersion)))
  }

  // ---------------------------------------------------------------- the machine

  datatype Event =
    | DoCreate(project: int, p: Payload)
    | DoAdd(group: int, ps: seq<Payload>)
    | DoUpdate(i: nat, patch: Patch)
    | DoDelete(i: nat)
    | DoVersion(group: int, base: nat)
    | SetApproval(i: nat, approval: ApprovalStatus)
    | Recalculate(i: nat, actual: int)

  /** The last two are not BOQ handlers: the approval handlers, and the recalculation of actuals. */
  predicate IsBoqHandler(e: Event) {
    !e.SetApproval? && !e.Recalculate?
  }

  function Call(s: Book, e: Event): Option<Book> {
    match e
    case DoCreate(project, p) => CreateBoq(s, project, p)
    case DoAdd(group, ps) => AddItems(s, group, ps)
    case DoUpdate(i, p) => UpdateItem(s, i, p)
    case DoDelete(i) => DeleteItem(s, i)
    case DoVersion(group, base) => CreateVersion(s, group, base)
    case SetApproval(i, a) =>
      if i >= |s.items| then None else Some(s.(items := s.items[i := s.items[i].(approval := a)]))
    case Recalculate(i, actual) =>
      if i >= |s.items| then None
      else Some(s.(items := s.items[i := s.items[i].(actualCost := actual, variance := s.items[i].totalCost - actual)]))
  }

  function Step(s: Book, e: Event): Book {
    Or(Call(s, e), s)
  }

  function Run(s: Book, es: seq<Event>): Book
    decreases es
  {
    if es == [] then s else Run(Step(s, es[0]), es[1..])
  }

  // ---------------------------------------------------------------- the invariant

  ghost predicate ItemOk(s: Book, x: Item) {
    && x.group in s.groups
    && 1 <= x.version <= s.groups[x.group].current
    && (x.latest <==> x.version == s.groups[x.group].current)
    && x.quantity >= 0.0 && x.unitCost >= 0.0
  }

  ghost predicate Inv(s: Book) {
    && (forall g :: g in s.groups ==> g < s.nextGroup && s.groups[g].current >= 1)
    && (forall i :: 0 <= i < |s.items| ==> ItemOk(s, s.items[i]))
    && UniqueKeys(s.items)
  }

  lemma {:induction false} InsertFacts(items: seq<Item>, parent: Item, ps: seq<Payload>)
    requires Insert(items, parent, ps).Some? && UniqueKeys(items)
    ensures var items' := Insert(items, parent, ps).value;
            && UniqueKeys(items') && |items| <= |items'|
            && (forall i :: 0 <= i < |items| ==> items'[i] == items[i])
            && forall i :: |items| <= i < |items'| ==>
                 exists p: Payload ::
                   PayloadOk(p) && items'[i] == NewItem(parent.project, parent.group, parent.version, p)
    decreases ps
  {
    if ps != [] {
      var x := NewItem(parent.project, parent.group, parent.version, ps[0]);
      InsertFacts(items + [x], parent, ps[1..]);
      var items' := Insert(items, parent, ps).value;
      assert items'[|items|] == (items + [x])[|items|] == x;
      assert forall i :: 0 <= i < |items| ==> items'[i] == (items + [x])[i];
    }
  }

  lemma AddKeepsInv(s: Book, e: Event)
    requires Inv(s) && e.DoAdd?
    ensures Inv(Step(s, e))
  {
    if Call(s, e).Some? {
      ParentIsLive(s.items, e.group);
      var parent := s.items[Parent(s.items, e.group).value];
      assert ItemOk(s, parent);
      InsertFacts(s.items, parent, e.ps);
      var s' := Step(s, e);
      forall i | 0 <= i < |s'.items|
        ensures ItemOk(s', s'.items[i])
      {
        if i < |s.items| {
          assert ItemOk(s, s.items[i]);
        } else {
          var p: Payload :| PayloadOk(p) && s'.items[i] == NewItem(parent.project, parent.group, parent.version, p);
        }
      }
    }
  }

  lemma CreateKeepsInv(s: Book, e: Event)
    requires Inv(s) && e.DoCreate?
    ensures Inv(Step(s, e))
  {
  }

  /** Replacing one row by one with a free key and the same place in its group. */
  lemma ReplaceKeepsInv(s: Book, i: nat, x: Item)
    requires Inv(s) && i < |s.items| && ItemOk(s, x) && KeyFreeBut(s.items, i, x)
    ensures Inv(s.(items := s.items[i := x]))
  {
  }

  lemma {:induction false} RetireFacts(items: seq<Item>, group: int, version: int)
    ensures |RetireAll(items, group, version)| == |items|
    ensures forall i :: 0 <= i < |items| ==> RetireAll(items, group, version)[i] == Retired(items[i], group, version)
  {
    if items != [] {
      RetireFacts(items[..|items| - 1], group, version);
    }
  }

  /** Every copy stems from a row, later copies from later rows. */
  ghost predicate CopyOf(items: seq<Item>, group: int, version: int, newVersion: int, k: nat, c: Item) {
    k < |items| && Copied(items[k], group, version) && c == Copy(items[k], group, newVersion)
  }

  lemma {:induction false} CopyStems(items: seq<Item>, group: int, version: int, newVersion: int, m: nat)
    returns (k: nat)
    requires m < |Copies(items, group, version, newVersion)|
    ensures CopyOf(items, group, version, newVersion, k, Copies(items, group, version, newVersion)[m])
  {
    var n := |items| - 1;
    var init := Copies(items[..n], group, version, newVersion);
    if m < |init| {
      k := CopyStems(items[..n], group, version, newVersion, m);
    } else {
      k := n;
    }
  }

  lemma {:induction false} CopiesAreUnique(items: seq<Item>, group: int, version: int, newVersion: int)
    requires UniqueKeys(items)
    ensures UniqueKeys(Copies(items, group, version, newVersion))
  {
    if items != [] {
      var n := |items| - 1;
      var init := Copies(items[..n], group, version, newVersion);
      CopiesAreUnique(items[..n], group, version, newVersion);
      var all := Copies(items, group, version, newVersion);
      forall i, j | 0 <= i < j < |all|
        ensures !SameKey(all[i], all[j])
      {
        var k := CopyStems(items[..n], group, version, newVersion, i);
        assert all[i] == init[i];
        if j == |init| {
          assert !SameKey(items[k], items[n]);
        }
      }
    }
  }

  /** s' is s with the group's version raised by one. */
  ghost predicate Raised(s: Book, s': Book, group: int) {
    && group in s.groups && s'.groups.Keys == s.groups.Keys
    && s'.groups[group].current == s.groups[group].current + 1
    && forall g :: g in s.groups && g != group ==> s'.groups[g] == s.groups[g]
  }

  lemma RetiredIsOk(s: Book, s': Book, x: Item, group: int)
    requires ItemOk(s, x) && Raised(s, s', group)
    ensures ItemOk(s', Retired(x, group, s.groups[group].current))
  {
  }

  lemma CopyIsOk(s: Book, s': Book, x: Item, group: int)
    requires ItemOk(s, x) && Raised(s, s', group) && x.group == group
    ensures ItemOk(s', Copy(x, group, s.groups[group].current + 1))
  {
  }

  lemma {:induction false} VersionKeepsItems(s: Book, e: Event, i: nat)
    requires Inv(s) && e.DoVersion? && Call(s, e).Some? && i < |Step(s, e).items|
    ensures ItemOk(Step(s, e), Step(s, e).items[i])
    ensures i < |s.items| ==> Step(s, e).items[i] == Retired(s.items[i], e.group, s.groups[e.group].current)
    ensures var x := Step(s, e).items[i];
            i >= |s.items| ==> x.group == e.group && x.version == s.groups[e.group].current + 1
  {
    var s', g := Step(s, e), e.group;
    var v := s.groups[g].current;
    assert ItemOk(s, s.items[e.base]) && s.items[e.base].version == v;
    RetireFacts(s.items, g, v);
    var retired := RetireAll(s.items, g, v);
    if i < |s.items| {
      assert s'.items[i] == retired[i];
      RetiredIsOk(s, s', s.items[i], g);
    } else {
      var k := CopyStems(retired, g, v, v + 1, i - |retired|);
      assert s'.items[i] == Copy(retired[k], g, v + 1) == Copy(s.items[k], g, v + 1);
      CopyIsOk(s, s', s.items[k], g);
    }
  }

  lemma RetiredStayUnique(items: seq<Item>, group: int, v: int)
    requires UniqueKeys(items)
    ensures UniqueKeys(RetireAll(items, group, v))
  {
    var retired := RetireAll(items, group, v);
    RetireFacts(items, group, v);
    forall i, j | 0 <= i < j < |retired|
      ensures !SameKey(retired[i], retired[j])
    {
      assert !SameKey(items[i], items[j]);
    }
  }

  ghost predicate Older(items: seq<Item>, group: int, w: int) {
    forall i :: 0 <= i < |items| && items[i].group == group ==> items[i].version < w
  }

  ghost predicate PlacedAt(items: seq<Item>, group: int, w: int) {
    forall i :: 0 <= i < |items| ==> items[i].group == group && items[i].version == w
  }

  lemma ConcatIsUnique(xs: seq<Item>, ys: seq<Item>, group: int, w: int)
    requires UniqueKeys(xs) && UniqueKeys(ys) && Older(xs, group, w) && PlacedAt(ys, group, w)
    ensures UniqueKeys(xs + ys)
  {
  }

  lemma {:induction false} CopiesArePlaced(items: seq<Item>, group: int, v: int, w: int)
    ensures PlacedAt(Copies(items, group, v, w), group, w)
  {
    if items != [] {
      CopiesArePlaced(items[..|items| - 1], group, v, w);
    }
  }

  lemma RetiredAreOlder(s: Book, group: int, v: int)
    requires Inv(s) && group in s.groups
    ensures Older(RetireAll(s.items, group, v), group, s.groups[group].current + 1)
  {
    RetireFacts(s.items, group, v);
    forall i | 0 <= i < |s.items| && s.items[i].group == group
      ensures s.items[i].version <= s.groups[group].current
    {
      assert ItemOk(s, s.items[i]);
    }
  }

  /** A new version never breaks the unique key: its copies differ among each other and carry a new version. */
  lemma VersionKeepsKeys(s: Book, group: int, base: nat)
    requires Inv(s) && CreateVersion(s, group, base).Some?
    ensures UniqueKeys(CreateVersion(s, group, base).value.items)
  {
    var v, w := s.items[base].version, s.groups[group].current + 1;
    var retired := RetireAll(s.items, group, v);
    RetiredStayUnique(s.items, group, v);
    RetiredAreOlder(s, group, v);
    CopiesAreUnique(retired, group, v, w);
    CopiesArePlaced(retired, group, v, w);
    ConcatIsUnique(retired, Copies(retired, group, v, w), group, w);
  }

  lemma VersionKeepsInv(s: Book, e: Event)
    requires Inv(s) && e.DoVersion?
    ensures Inv(Step(s, e))
  {
    if Call(s, e).Some? {
      VersionKeepsKeys(s, e.group, e.base);
      forall i | 0 <= i < |Step(s, e).items|
        ensures ItemOk(Step(s, e), Step(s, e).items[i])
      {
        VersionKeepsItems(s, e, i);
      }
    }
  }

  /** The steps that rewrite one row. */
  lemma RewriteKeepsInv(s: Book, e: Event)
    requires Inv(s) && (e.DoUpdate? || e.DoDelete? || e.SetApproval? || e.Recalculate?)
    ensures Inv(Step(s, e))
  {
    if Call(s, e).Some? {
      assert ItemOk(s, s.items[e.i]);
      assert Step(s, e) == s.(items := s.items[e.i := Step(s, e).items[e.i]]);
      ReplaceKeepsInv(s, e.i, Step(s, e).items[e.i]);
    }
  }

  lemma StepKeepsInv(s: Book, e: Event)
    requires Inv(s)
    ensures Inv(Step(s, e))
  {
    match e
    case DoCreate(_, _) => CreateKeepsInv(s, e);
    case DoAdd(_, _) => AddKeepsInv(s, e);
    case DoVersion(_, _) => VersionKeepsInv(s, e);
    case _ => RewriteKeepsInv(s, e);
  }

  /** Versions in range, latest means current and unique keys, over every run. */
  lemma {:induction false} RunKeepsInv(s: Book, es: seq<Event>)
    requires Inv(s)
    ensures Inv(Run(s, es))
    decreases es
  {
    if es != [] {
      StepKeepsInv(s, es[0]);
      RunKeepsInv(Step(s, es[0]), es[1..]);
    }
  }

  // ---------------------------------------------------------------- totals

  /** The stored total is the rounded cost of the stored quantity and unit cost. */
  predicate CostAgrees(x: Item) {
    x.totalCost == Stored(Cost(x.quantity, x.unitCost))
  }

  ghost predicate RowsAgree(items: seq<Item>) {
    forall i :: 0 <= i < |items| ==> CostAgrees(items[i])
  }

  ghost predicate CostsAgree(s: Book) {
    RowsAgree(s.items)
  }

  /** Rounding the factors does not move the rounded cost. */
  predicate Prices(quantity: real, unitCost: real) {
    Stored(Cost(quantity, unitCost)) == Stored(Cost(Thousandths(quantity), Hundredths(unitCost)))
  }

  ghost predicate AllPriceAlike(ps: seq<Payload>) {
    forall k :: 0 <= k < |ps| ==> Prices(ps[k].quantity, ps[k].unitCost)
  }

  /** Every quantity and unit cost the step writes prices alike before and after rounding. */
  ghost predicate PricesAlike(s: Book, e: Event) {
    Call(s, e).Some? ==>
      match e
      case DoCreate(_, p) => Prices(p.quantity, p.unitCost)
      case DoAdd(_, ps) => AllPriceAlike(ps)
      case DoUpdate(i, p) =>
        i < |s.items| ==> Prices(Or(p.quantity, s.items[i].quantity), Or(p.unitCost, s.items[i].unitCost))
      case _ => true
  }

  lemma {:induction false} InsertAgreesIff(items: seq<Item>, parent: Item, ps: seq<Payload>)
    requires RowsAgree(items) && Insert(items, parent, ps).Some?
    ensures RowsAgree(Insert(items, parent, ps).value) <==> AllPriceAlike(ps)
    decreases ps
  {
    if ps != [] {
      var x := NewItem(parent.project, parent.group, parent.version, ps[0]);
      assert ps == [ps[0]] + ps[1..];
      if CostAgrees(x) {
        InsertAgreesIff(items + [x], parent, ps[1..]);
      } else {
        InsertedRow(items, parent, ps);
      }
    }
  }

  lemma {:induction false} InsertKeepsRows(items: seq<Item>, parent: Item, ps: seq<Payload>)
    requires Insert(items, parent, ps).Some?
    ensures items <= Insert(items, parent, ps).value
    decreases ps
  {
    if ps != [] {
      InsertKeepsRows(items + [NewItem(parent.project, parent.group, parent.version, ps[0])], parent, ps[1..]);
    }
  }

  lemma InsertedRow(items: seq<Item>, parent: Item, ps: seq<Payload>)
    requires ps != [] && Insert(items, parent, ps).Some?
    ensures var x := NewItem(parent.project, parent.group, parent.version, ps[0]);
            |items| < |Insert(items, parent, ps).value| && Insert(items, parent, ps).value[|items|] == x
  {
    var more := items + [NewItem(parent.project, parent.group, parent.version, ps[0])];
    InsertKeepsRows(more, parent, ps[1..]);
    assert Insert(items, parent, ps).value[|items|] == more[|items|];
  }

  /** Every row of a new version has the factors and the total of an old row. */
  lemma VersionRowStems(s: Book, group: int, base: nat, i: nat) returns (k: nat)
    requires CreateVersion(s, group, base).Some? && i < |CreateVersion(s, group, base).value.items|
    ensures k < |s.items|
    ensures var x, y := s.items[k], CreateVersion(s, group, base).value.items[i];
            y.quantity == x.quantity && y.unitCost == x.unitCost && y.totalCost == x.totalCost
  {
    var v, w := s.items[base].version, s.groups[group].current + 1;
    var retired := RetireAll(s.items, group, v);
    RetireFacts(s.items, group, v);
    k := i;
    if i >= |retired| {
      k := CopyStems(retired, group, v, w, i - |retired|);
    }
  }

  lemma VersionKeepsCosts(s: Book, group: int, base: nat)
    requires CostsAgree(s) && CreateVersion(s, group, base).Some?
    ensures CostsAgree(CreateVersion(s, group, base).value)
  {
    forall i | 0 <= i < |CreateVersion(s, group, base).value.items|
      ensures CostAgrees(CreateVersion(s, group, base).value.items[i])
    {
      var k := VersionRowStems(s, group, base, i);
      assert CostAgrees(s.items[k]);
    }
  }

  /** Stored totals stay the rounded cost of their factors exactly while rounding the factors moves no price. */
  lemma CostsAgreeIff(s: Book, e: Event)
    requires CostsAgree(s)
    ensures CostsAgree(Step(s, e)) <==> PricesAlike(s, e)
  {
    if Call(s, e).Some? {
      match e
      case DoCreate(_, _) =>
        assert Step(s, e).items[|s.items|] == NewItem(e.project, s.nextGroup, 1, e.p);
      case DoAdd(g, ps) => InsertAgreesIff(s.items, s.items[Parent(s.items, g).value], ps);
      case DoUpdate(i, p) =>
        assert Step(s, e).items[i] == Patched(s.items[i], p);
      case DoVersion(g, b) => VersionKeepsCosts(s, g, b);
      case _ =>
        assert CostAgrees(s.items[e.i]);
    }
  }

  // ---------------------------------------------------------------- decimals

  predicate ThreeDecimals(x: real) {
    Thousandths(x) == x
  }

  predicate TwoDecimals(x: real) {
    Hundredths(x) == x
  }

  /** Amounts a cent or more apart are stored apart. */
  lemma StoredApart(x: real, y: real)
    requires x >= 0.0 && y >= 0.0 && (x - y >= 1.0 || y - x >= 1.0)
    ensures Stored(x) != Stored(y)
  {
  }

  /** Some whole number times a hundred makes any difference count. */
  lemma FineFactorShows(x: real, y: real) returns (k: int)
    requires x >= 0.0 && y >= 0.0 && x != y
    ensures k > 0 && Stored(Cost(x, k as real)) != Stored(Cost(y, k as real))
  {
    k := (1.0 / (if x > y then x - y else y - x)).Floor + 1;
    if x > y {
      CostsApart(x, y, k as real);
    } else {
      CostsApart(y, x, k as real);
    }
    StoredApart(Cost(x, k as real), Cost(y, k as real));
  }

  lemma CostsApart(x: real, y: real, k: real)
    requires x > y >= 0.0 && k > 1.0 / (x - y)
    ensures Cost(y, k) >= 0.0 && Cost(x, k) - Cost(y, k) >= 1.0
  {
    var d := x - y;
    assert 1.0 / d * d == 1.0 && (k - 1.0 / d) * d > 0.0;
    assert k > 0.0;
    CostNonNegative(y, k);
    assert x * k - y * k == k * d;
  }

  lemma WholeHasDecimals(k: int)
    ensures TwoDecimals(k as real) && ThreeDecimals(k as real)
  {
    assert k as real * 100.0 == (100 * k) as real && k as real * 1000.0 == (1000 * k) as real;
    WholeRoundsToItself((100 * k) as real);
    WholeRoundsToItself((1000 * k) as real);
  }

  lemma StoredDecimals(x: real)
    requires x >= 0.0
    ensures Thousandths(x) >= 0.0 && ThreeDecimals(Thousandths(x))
    ensures Hundredths(x) >= 0.0 && TwoDecimals(Hundredths(x))
  {
    StoredFacts(x * 1000.0);
    StoredFacts(x * 100.0);
    WholeRoundsToItself(Stored(x * 1000.0) as real);
    WholeRoundsToItself(Stored(x * 100.0) as real);
  }

  /** A quantity is priced alike before and after it is stored, at every unit cost, exactly with three decimals. */
  lemma QuantityPricesIff(quantity: real)
    requires quantity >= 0.0
    ensures (forall u :: u > 0.0 && TwoDecimals(u) ==> Prices(quantity, u)) <==> ThreeDecimals(quantity)
  {
    if !ThreeDecimals(quantity) {
      StoredDecimals(quantity);
      var k := FineFactorShows(quantity, Thousandths(quantity));
      WholeHasDecimals(k);
      assert !Prices(quantity, k as real);
    }
  }

  /** A unit cost is, at every quantity, exactly with two. */
  lemma UnitCostPricesIff(unitCost: real)
    requires unitCost >= 0.0
    ensures (forall q :: q > 0.0 && ThreeDecimals(q) ==> Prices(q, unitCost)) <==> TwoDecimals(unitCost)
  {
    if !TwoDecimals(unitCost) {
      StoredDecimals(unitCost);
      var k := FineFactorShows(unitCost, Hundredths(unitCost));
      WholeHasDecimals(k);
      assert Cost(unitCost, k as real) == Cost(k as real, unitCost);
      assert Cost(Hundredths(unitCost), k as real) == Cost(k as real, Hundredths(unitCost));
      assert !Prices(k as real, unitCost);
    }
  }

  /** 0.0014 at 100.00 is accepted and costs 14 cents, but what is stored of it multiplies to 10. */
  lemma FineQuantityMisprices(project: int, group: int, p: Payload)
    requires p.quantity == 0.0014 && p.unitCost == 100.0 && p.name != ""
    ensures var x := NewItem(project, group, 1, p);
            PayloadOk(p) && x.totalCost == 14 && Stored(Cost(x.quantity, x.unitCost)) == 10
  {
    assert (1.4 + 0.5 as real).Floor == 1 && (10000.0 + 0.5 as real).Floor == 10000;
    assert (14.0 + 0.5 as real).Floor == 14 && (10.0 + 0.5 as real).Floor == 10;
  }

  /** The request has no more decimals than the columns. */
  predicate ScaledPayload(p: Payload) {
    ThreeDecimals(p.quantity) && TwoDecimals(p.unitCost)
  }

  ghost predicate ScaledRequest(e: Event) {
    match e
    case DoCreate(_, p) => ScaledPayload(p)
    case DoAdd(_, ps) => forall k :: 0 <= k < |ps| ==> ScaledPayload(ps[k])
    case DoUpdate(_, p) =>
      (p.quantity.Some? ==> ThreeDecimals(p.quantity.value)) && (p.unitCost.Some? ==> TwoDecimals(p.unitCost.value))
    case _ => true
  }

  ghost predicate RowsScaled(items: seq<Item>) {
    forall i :: 0 <= i < |items| ==>
      && items[i].quantity >= 0.0 && items[i].unitCost >= 0.0
      && ThreeDecimals(items[i].quantity) && TwoDecimals(items[i].unitCost)
  }

  lemma {:induction false} InsertIsScaled(items: seq<Item>, parent: Item, ps: seq<Payload>)
    requires RowsScaled(items) && Insert(items, parent, ps).Some?
    ensures RowsScaled(Insert(items, parent, ps).value)
    decreases ps
  {
    if ps != [] {
      StoredDecimals(ps[0].quantity);
      StoredDecimals(ps[0].unitCost);
      InsertIsScaled(items + [NewItem(parent.project, parent.group, parent.version, ps[0])], parent, ps[1..]);
    }
  }

  lemma VersionIsScaled(s: Book, group: int, base: nat)
    requires RowsScaled(s.items) && CreateVersion(s, group, base).Some?
    ensures RowsScaled(CreateVersion(s, group, base).value.items)
  {
    var items' := CreateVersion(s, group, base).value.items;
    forall i | 0 <= i < |items'|
      ensures items'[i].quantity >= 0.0 && items'[i].unitCost >= 0.0
              && ThreeDecimals(items'[i].quantity) && TwoDecimals(items'[i].unitCost)
    {
      var k := VersionRowStems(s, group, base, i);
    }
  }

  /** Whatever is requested, the rows are at the scale of their columns. */
  lemma StepIsScaled(s: Book, e: Event)
    requires RowsScaled(s.items)
    ensures RowsScaled(Step(s, e).items)
  {
    if Call(s, e).Some? {
      match e
      case DoCreate(_, p) =>
        StoredDecimals(p.quantity);
        StoredDecimals(p.unitCost);
      case DoAdd(g, ps) => InsertIsScaled(s.items, s.items[Parent(s.items, g).value], ps);
      case DoUpdate(i, p) =>
        StoredDecimals(Or(p.quantity, s.items[i].quantity));
        StoredDecimals(Or(p.unitCost, s.items[i].unitCost));
      case DoVersion(g, b) => VersionIsScaled(s, g, b);
      case _ =>
    }
  }

  /**
   * Over every run, approvals, recalculations and versions included, whose quantities have
   * three decimals and unit costs two, every stored total is the rounded cost of its row.
   */
  lemma {:induction false} CostsAgreeOverRuns(s: Book, es: seq<Event>)
    requires RowsScaled(s.items) && CostsAgree(s)
    requires forall e :: e in es ==> ScaledRequest(e)
    ensures CostsAgree(Run(s, es))
    decreases es
  {
    if es != [] {
      assert es[0] in es;
      StepIsScaled(s, es[0]);
      CostsAgreeIff(s, es[0]);
      CostsAgreeOverRuns(Step(s, es[0]), es[1..]);
    }
  }

  /** The total of a row is exactly quantity times unit cost if and only if that is whole cents. */
  lemma TotalIsExactIff(x: Item)
    requires CostAgrees(x)
    ensures x.totalCost as real == Cost(x.quantity, x.unitCost) <==> Whole(Cost(x.quantity, x.unitCost))
  {
    if Whole(Cost(x.quantity, x.unitCost)) {
      WholeRoundsToItself(Cost(x.quantity, x.unitCost));
    } else {
      assert (x.totalCost as real).Floor == x.totalCost;
    }
  }

  /** A thousandth at 1.50 costs 0.15 cents, and is stored as nothing. */
  lemma SmallItemIsStoredForNothing(x: Item)
    requires x.quantity == 0.001 && x.unitCost == 1.5 && CostAgrees(x)
    ensures x.totalCost == 0 && Cost(x.quantity, x.unitCost) == 0.15
  {
    assert (0.15 + 0.5 as real).Floor == 0;
  }

  // ---------------------------------------------------------------- variances

  predicate VarianceAgrees(x: Item) {
    x.variance == x.totalCost - x.actualCost
  }

  ghost predicate VariancesAgree(s: Book) {
    forall i :: 0 <= i < |s.items| ==> VarianceAgrees(s.items[i])
  }

  /** A cost of half a cent that is overspent: its total is rounded up, its variance down. */
  predicate RoundsApart(cost: real, actual: int) {
    cost < actual as real && cost - cost.Floor as real == 0.5
  }

  lemma StoredDifference(cost: real, actual: int)
    requires cost >= 0.0
    ensures Stored(cost - actual as real) == Stored(cost) - actual <==> !RoundsApart(cost, actual)
  {
    var f := cost.Floor;
    var rest := cost - f as real;
    if cost >= actual as real {
      assert (cost - actual as real + 0.5).Floor == (cost + 0.5).Floor - actual;
    } else if rest < 0.5 {
      assert (cost + 0.5).Floor == f;
      assert (0.5 - (cost - actual as real)).Floor == actual - f;
    } else {
      assert (cost + 0.5).Floor == f + 1;
      assert rest == 0.5 ==> (0.5 - (cost - actual as real)).Floor == actual - f;
      assert rest > 0.5 ==> (0.5 - (cost - actual as real)).Floor == actual - f - 1;
    }
  }

  lemma CostNonNegative(quantity: real, unitCost: real)
    requires quantity >= 0.0 && unitCost >= 0.0
    ensures Cost(quantity, unitCost) >= 0.0
  {
  }

  lemma {:induction false} RowIsCopied(items: seq<Item>, group: int, v: int, w: int, k: nat)
    requires k < |items| && Copied(items[k], group, v)
    ensures Copy(items[k], group, w) in Copies(items, group, v, w)
  {
    var n := |items| - 1;
    if k < n {
      RowIsCopied(items[..n], group, v, w, k);
    }
  }

  /** What a version copies carries a cost. */
  ghost predicate CopiesACost(s: Book, group: int, base: nat) {
    base < |s.items| &&
    exists k :: 0 <= k < |s.items| && Copied(s.items[k], group, s.items[base].version) && s.items[k].totalCost != 0
  }

  lemma CopyAppears(s: Book, group: int, base: nat, k: nat) returns (i: nat)
    requires CreateVersion(s, group, base).Some? && k < |s.items| && Copied(s.items[k], group, s.items[base].version)
    ensures i < |CreateVersion(s, group, base).value.items|
    ensures CreateVersion(s, group, base).value.items[i] == Copy(s.items[k], group, s.groups[group].current + 1)
  {
    var v, w := s.items[base].version, s.groups[group].current + 1;
    var retired := RetireAll(s.items, group, v);
    RetireFacts(s.items, group, v);
    RowIsCopied(retired, group, v, w, k);
    var copies := Copies(retired, group, v, w);
    var m :| 0 <= m < |copies| && copies[m] == Copy(retired[k], group, w);
    i := |retired| + m;
  }

  /** A copied cost leaves a copy whose variance is wrong. */
  lemma CopiedCostSpoils(s: Book, group: int, base: nat)
    requires CreateVersion(s, group, base).Some? && CopiesACost(s, group, base)
    ensures !VariancesAgree(CreateVersion(s, group, base).value)
  {
    var k :| 0 <= k < |s.items| && Copied(s.items[k], group, s.items[base].version) && s.items[k].totalCost != 0;
    var i := CopyAppears(s, group, base, k);
    assert !VarianceAgrees(CreateVersion(s, group, base).value.items[i]);
  }

  lemma VersionRowAgrees(s: Book, group: int, base: nat, i: nat)
    requires VariancesAgree(s) && CreateVersion(s, group, base).Some? && !CopiesACost(s, group, base)
    requires i < |CreateVersion(s, group, base).value.items|
    ensures VarianceAgrees(CreateVersion(s, group, base).value.items[i])
  {
    var v, w := s.items[base].version, s.groups[group].current + 1;
    var retired := RetireAll(s.items, group, v);
    RetireFacts(s.items, group, v);
    if i >= |retired| {
      var k := CopyStems(retired, group, v, w, i - |retired|);
      assert Copied(s.items[k], group, v);
    } else {
      assert VarianceAgrees(s.items[i]);
    }
  }

  lemma VersionVariancesIff(s: Book, group: int, base: nat)
    requires VariancesAgree(s) && CreateVersion(s, group, base).Some?
    ensures VariancesAgree(CreateVersion(s, group, base).value) <==> !CopiesACost(s, group, base)
  {
    if CopiesACost(s, group, base) {
      CopiedCostSpoils(s, group, base);
    } else {
      forall i | 0 <= i < |CreateVersion(s, group, base).value.items|
        ensures VarianceAgrees(CreateVersion(s, group, base).value.items[i])
      {
        VersionRowAgrees(s, group, base, i);
      }
    }
  }

  /**
   * variance = total - actual is kept by every step except exactly two: a version that copies
   * an item with a cost, as the copy's variance starts at 0, and an update to an overspent
   * cost that ends in half a cent.
   */
  ghost predicate SpoilsVariances(s: Book, e: Event) {
    && Call(s, e).Some?
    && match e
       case DoVersion(group, base) => CopiesACost(s, group, base)
       case DoUpdate(i, p) =>
         i < |s.items|
         && RoundsApart(Cost(Or(p.quantity, s.items[i].quantity), Or(p.unitCost, s.items[i].unitCost)),
                        s.items[i].actualCost)
       case _ => false
  }

  lemma NewItemAgrees(project: int, group: int, version: int, p: Payload)
    requires PayloadOk(p)
    ensures VarianceAgrees(NewItem(project, group, version, p))
  {
    assert Cost(p.quantity, p.unitCost) - 0 as real == Cost(p.quantity, p.unitCost);
  }

  lemma UpdateVariancesIff(s: Book, i: nat, p: Patch)
    requires Inv(s) && VariancesAgree(s) && UpdateItem(s, i, p).Some?
    ensures VariancesAgree(UpdateItem(s, i, p).value) <==> !SpoilsVariances(s, DoUpdate(i, p))
  {
    var x := s.items[i];
    assert ItemOk(s, x);
    var quantity, unitCost := Or(p.quantity, x.quantity), Or(p.unitCost, x.unitCost);
    CostNonNegative(quantity, unitCost);
    StoredDifference(Cost(quantity, unitCost), x.actualCost);
    assert UpdateItem(s, i, p).value.items[i] == Patched(x, p);
  }

  lemma VariancesAgreeIff(s: Book, e: Event)
    requires Inv(s) && VariancesAgree(s)
    ensures VariancesAgree(Step(s, e)) <==> !SpoilsVariances(s, e)
  {
    if Call(s, e).Some? {
      match e
      case DoCreate(project, p) => NewItemAgrees(project, s.nextGroup, 1, p);
      case DoAdd(_, _) => AddKeepsVariances(s, e);
      case DoUpdate(i, p) => UpdateVariancesIff(s, i, p);
      case DoVersion(g, b) => VersionVariancesIff(s, g, b);
      case _ =>
        assert VarianceAgrees(s.items[e.i]);
    }
  }

  lemma AddKeepsVariances(s: Book, e: Event)
    requires VariancesAgree(s) && UniqueKeys(s.items) && e.DoAdd? && Call(s, e).Some?
    ensures VariancesAgree(Step(s, e))
  {
    ParentIsLive(s.items, e.group);
    var parent := s.items[Parent(s.items, e.group).value];
    InsertFacts(s.items, parent, e.ps);
    var s' := Step(s, e);
    forall i | 0 <= i < |s'.items|
      ensures VarianceAgrees(s'.items[i])
    {
      if i >= |s.items| {
        var p: Payload :|
          PayloadOk(p) && s'.items[i] == NewItem(parent.project, parent.group, parent.version, p);
        NewItemAgrees(parent.project, parent.group, parent.version, p);
      } else {
        assert VarianceAgrees(s.items[i]);
      }
    }
  }

  // ---------------------------------------------------------------- history is frozen

  lemma HistoryIsFrozen(s: Book, e: Event, i: nat)
    requires Inv(s) && IsBoqHandler(e) && i < |s.items| && !s.items[i].latest
    ensures i < |Step(s, e).items| && Step(s, e).items[i] == s.items[i]
  {
    if Call(s, e).Some? {
      if e.DoAdd? {
        ParentIsLive(s.items, e.group);
        InsertFacts(s.items, s.items[Parent(s.items, e.group).value], e.ps);
      }
      if e.DoVersion? {
        RetireFacts(s.items, e.group, s.items[e.base].version);
      }
    }
  }

  /** Two rows that differ in approval, actual cost and variance at most. */
  predicate SameButBooked(x: Item, y: Item) {
    y.(approval := x.approval, actualCost := x.actualCost, variance := x.variance) == x
  }

  /** No step at all changes more of an old row than its approval, its actuals and its variance. */
  lemma OldRowsOnlyBook(s: Book, e: Event, i: nat)
    requires Inv(s) && i < |s.items| && !s.items[i].latest
    ensures i < |Step(s, e).items| && SameButBooked(s.items[i], Step(s, e).items[i]) && !Step(s, e).items[i].latest
    ensures IsBoqHandler(e) || e.i != i ==> Step(s, e).items[i] == s.items[i]
  {
    if IsBoqHandler(e) {
      HistoryIsFrozen(s, e, i);
    }
  }

  /** Over every run whose approvals and recalculations are of other rows, an old row stays as it is. */
  lemma {:induction false} HistoryStaysFrozen(s: Book, es: seq<Event>, i: nat)
    requires Inv(s) && i < |s.items| && !s.items[i].latest
    requires forall e :: e in es ==> IsBoqHandler(e) || e.i != i
    ensures i < |Run(s, es).items| && Run(s, es).items[i] == s.items[i]
    decreases es
  {
    if es != [] {
      assert es[0] in es;
      OldRowsOnlyBook(s, es[0], i);
      StepKeepsInv(s, es[0]);
      HistoryStaysFrozen(Step(s, es[0]), es[1..], i);
    }
  }

  /** Over every run whatsoever, only approval, actuals and variance of an old row can change. */
  lemma {:induction false} OldRowsOnlyBookOverRuns(s: Book, es: seq<Event>, i: nat)
    requires Inv(s) && i < |s.items| && !s.items[i].latest
    ensures i < |Run(s, es).items| && SameButBooked(s.items[i], Run(s, es).items[i])
    decreases es
  {
    if es != [] {
      OldRowsOnlyBook(s, es[0], i);
      StepKeepsInv(s, es[0]);
      OldRowsOnlyBookOverRuns(Step(s, es[0]), es[1..], i);
    }
  }

  ghost predicate LatestIs(items: seq<Item>, group: int, v: int) {
    forall i :: 0 <= i < |items| && items[i].group == group ==> (items[i].latest <==> items[i].version == v)
  }

  lemma LatestIsCurrent(s: Book, group: int, base: nat)
    requires Inv(s) && CreateVersion(s, group, base).Some?
    ensures LatestIs(s.items, group, s.items[base].version) && s.items[base].version == s.groups[group].current
  {
  }

  lemma OldRowsAreLocked(items: seq<Item>, copies: seq<Item>, group: int, v: int, i: nat)
    requires LatestIs(items, group, v) && i < |items| && items[i].group == group
    ensures var all := RetireAll(items, group, v) + copies; i < |all| && !Editable(all, i)
  {
    RetireFacts(items, group, v);
  }

  lemma CopiesAreEditable(retired: seq<Item>, group: int, v: int, w: int, m: nat)
    requires m < |Copies(retired, group, v, w)|
    ensures var all := retired + Copies(retired, group, v, w);
            all[|retired| + m].group == group && Editable(all, |retired| + m)
  {
    var k := CopyStems(retired, group, v, w, m);
    assert (retired + Copies(retired, group, v, w))[|retired| + m] == Copy(retired[k], group, w);
  }

  /** A new version can be edited at once, and only it: the rows it was copied from are locked. */
  lemma NewVersionIsEditable(s: Book, group: int, base: nat, i: nat)
    requires Inv(s) && CreateVersion(s, group, base).Some? && i < |CreateVersion(s, group, base).value.items|
    ensures var items := CreateVersion(s, group, base).value.items;
            items[i].group == group ==> (Editable(items, i) <==> i >= |s.items|)
    ensures i >= |s.items| ==> CreateVersion(s, group, base).value.items[i].group == group
  {
    var v, w := s.items[base].version, s.groups[group].current + 1;
    var retired := RetireAll(s.items, group, v);
    RetireFacts(s.items, group, v);
    if i >= |s.items| {
      CopiesAreEditable(retired, group, v, w, i - |retired|);
    } else if s.items[i].group == group {
      LatestIsCurrent(s, group, base);
      OldRowsAreLocked(s.items, Copies(retired, group, v, w), group, v, i);
    } else {
      assert CreateVersion(s, group, base).value.items[i] == retired[i];
    }
  }

  // ---------------------------------------------------------------- the handlers on the fields

  /** A first item: everything from the payload, no actuals yet, so the variance is the total. */
  ghost predicate IsNewItem(x: Item, project: int, group: int, version: int, p: Payload) {
    && x.project == project && x.group == group && x.version == version && x.latest
    && x.name == p.name && x.category == p.category && x.status == p.status && x.approval == Draft
    && x.quantity == Thousandths(p.quantity) && x.unitCost == Hundredths(p.unitCost)
    && KeptAs(p.quantity * p.unitCost * 100.0, x.totalCost) && x.actualCost == 0 && x.variance == x.totalCost
  }

  ghost predicate Accepts(p: Payload) {
    p.name != "" && p.quantity > 0.0 && p.unitCost > 0.0
  }

  lemma NewItemHolds(project: int, group: int, version: int, p: Payload)
    requires Accepts(p)
    ensures IsNewItem(NewItem(project, group, version, p), project, group, version, p)
  {
    CostHolds(p.quantity, p.unitCost, 0);
    NewItemAgrees(project, group, version, p);
  }

  /** The k-th payload clashes with a row of its group and version, or with an earlier payload. */
  ghost predicate Clashes(items: seq<Item>, parent: Item, ps: seq<Payload>, k: int)
    requires 0 <= k < |ps|
  {
    || (exists i :: 0 <= i < |items| && items[i].group == parent.group && items[i].version == parent.version
                    && items[i].name == ps[k].name && items[i].category == ps[k].category)
    || exists j :: 0 <= j < k && ps[j].name == ps[k].name && ps[j].category == ps[k].category
  }

  ghost predicate AllInsertable(items: seq<Item>, parent: Item, ps: seq<Payload>) {
    forall k :: 0 <= k < |ps| ==> Accepts(ps[k]) && !Clashes(items, parent, ps, k)
  }

  lemma ClashShifts(items: seq<Item>, parent: Item, ps: seq<Payload>, k: nat)
    requires 0 < k < |ps|
    ensures var x := NewItem(parent.project, parent.group, parent.version, ps[0]);
            Clashes(items, parent, ps, k) <==> Clashes(items + [x], parent, ps[1..], k - 1)
  {
    var x := NewItem(parent.project, parent.group, parent.version, ps[0]);
    var more := items + [x];
    if Clashes(items, parent, ps, k) {
      if i :| 0 <= i < |items| && items[i].group == parent.group && items[i].version == parent.version
              && items[i].name == ps[k].name && items[i].category == ps[k].category {
        assert more[i] == items[i];
      } else {
        var j :| 0 <= j < k && ps[j].name == ps[k].name && ps[j].category == ps[k].category;
        assert if j == 0 then more[|items|] == x else ps[1..][j - 1] == ps[j];
      }
    }
    if Clashes(more, parent, ps[1..], k - 1) {
      if j :| 0 <= j < k - 1 && ps[1..][j].name == ps[k].name && ps[1..][j].category == ps[k].category {
        assert ps[j + 1] == ps[1..][j];
      } else {
        var i :| 0 <= i < |more| && more[i].group == parent.group && more[i].version == parent.version
                 && more[i].name == ps[k].name && more[i].category == ps[k].category;
        assert if i == |items| then ps[0].name == ps[k].name else more[i] == items[i];
      }
    }
  }

  lemma FirstIsInsertable(items: seq<Item>, parent: Item, ps: seq<Payload>)
    requires ps != []
    ensures PayloadOk(ps[0]) && KeyFree(items, NewItem(parent.project, parent.group, parent.version, ps[0]))
            <==> Accepts(ps[0]) && !Clashes(items, parent, ps, 0)
  {
  }

  /** All payloads are inserted in order behind the old rows, or nothing is. */
  lemma {:induction false} InsertHolds(items: seq<Item>, parent: Item, ps: seq<Payload>)
    ensures Insert(items, parent, ps).Some? <==> AllInsertable(items, parent, ps)
    ensures Insert(items, parent, ps).Some? ==>
              var items' := Insert(items, parent, ps).value;
              && |items'| == |items| + |ps| && items'[..|items|] == items
              && forall k :: 0 <= k < |ps| ==>
                   items'[|items| + k] == NewItem(parent.project, parent.group, parent.version, ps[k])
    decreases ps
  {
    if ps != [] {
      var x := NewItem(parent.project, parent.group, parent.version, ps[0]);
      FirstIsInsertable(items, parent, ps);
      InsertHolds(items + [x], parent, ps[1..]);
      forall k: nat | 0 < k < |ps|
        ensures Clashes(items, parent, ps, k) <==> Clashes(items + [x], parent, ps[1..], k - 1)
        ensures ps[1..][k - 1] == ps[k]
      {
        ClashShifts(items, parent, ps, k);
      }
      TailInsertable(items, parent, ps, x);
    }
  }

  lemma TailInsertable(items: seq<Item>, parent: Item, ps: seq<Payload>, x: Item)
    requires ps != []
    requires forall k: nat :: 0 < k < |ps| ==>
               ps[1..][k - 1] == ps[k]
               && (Clashes(items, parent, ps, k) <==> Clashes(items + [x], parent, ps[1..], k - 1))
    ensures AllInsertable(items, parent, ps) <==>
              Accepts(ps[0]) && !Clashes(items, parent, ps, 0) && AllInsertable(items + [x], parent, ps[1..])
  {
    if AllInsertable(items + [x], parent, ps[1..]) {
      forall k: nat | 0 < k < |ps|
        ensures Accepts(ps[k]) && !Clashes(items, parent, ps, k)
      {
        assert Accepts(ps[1..][k - 1]) && !Clashes(items + [x], parent, ps[1..], k - 1);
      }
    }
  }

  ghost predicate Standing(x: Item, group: int) {
    x.group == group && x.latest && x.status != Deleted
  }

  ghost predicate FirstStanding(items: seq<Item>, group: int, i: int) {
    0 <= i < |items| && Standing(items[i], group) && forall j :: 0 <= j < i ==> !Standing(items[j], group)
  }

  lemma {:induction false} ParentIsFirst(items: seq<Item>, group: int)
    ensures Parent(items, group).Some? ==> FirstStanding(items, group, Parent(items, group).value)
    ensures Parent(items, group).None? ==> forall j :: 0 <= j < |items| ==> !Standing(items[j], group)
  {
    if items != [] {
      ParentIsFirst(items[..|items| - 1], group);
      assert forall j :: 0 <= j < |items| - 1 ==> items[..|items| - 1][j] == items[j];
    }
  }

  /** The payloads as new items beside the first standing row, with its project, group and version. */
  ghost predicate Adds(s: Book, s': Book, group: int, ps: seq<Payload>) {
    && s'.groups == s.groups && s'.nextGroup == s.nextGroup
    && |s'.items| == |s.items| + |ps| && s'.items[..|s.items|] == s.items
    && exists i :: FirstStanding(s.items, group, i) && s.items[i].approval != Approved
                   && AllInsertable(s.items, s.items[i], ps)
                   && forall k :: 0 <= k < |ps| ==>
                        IsNewItem(s'.items[|s.items| + k], s.items[i].project, group, s.items[i].version, ps[k])
  }

  lemma AddItemsHold(s: Book, group: int, ps: seq<Payload>)
    ensures AddItems(s, group, ps).Some? ==> Adds(s, AddItems(s, group, ps).value, group, ps)
    ensures AddItems(s, group, ps).None? ==>
              forall i :: FirstStanding(s.items, group, i) ==>
                s.items[i].approval == Approved || !AllInsertable(s.items, s.items[i], ps)
  {
    ParentIsFirst(s.items, group);
    var found := Parent(s.items, group);
    if found.Some? {
      var parent := s.items[found.value];
      InsertHolds(s.items, parent, ps);
      forall k | 0 <= k < |ps| && Accepts(ps[k])
        ensures IsNewItem(NewItem(parent.project, group, parent.version, ps[k]), parent.project, group, parent.version,
                          ps[k])
      {
        NewItemHolds(parent.project, group, parent.version, ps[k]);
      }
      assert forall i :: FirstStanding(s.items, group, i) ==> i == found.value;
    }
  }

  ghost function Given<T>(field: Option<T>, stored: T): T {
    match field case Some(v) => v case None => stored
  }

  /** The factors as the columns keep them, and the costs computed from them before that. */
  ghost predicate IsPriced(y: Item, quantity: real, unitCost: real, actual: int) {
    && y.quantity == Thousandths(quantity) && y.unitCost == Hundredths(unitCost)
    && KeptAs(quantity * unitCost * 100.0, y.totalCost) && y.actualCost == actual
    && KeptAs(quantity * unitCost * 100.0 - actual as real, y.variance)
  }

  /** The fields given are written, the others and the actual cost stay; the costs follow the new factors. */
  ghost predicate IsPatched(x: Item, p: Patch, y: Item) {
    && y.project == x.project && y.group == x.group && y.version == x.version && y.latest == x.latest
    && y.approval == x.approval && y.name == Given(p.name, x.name) && y.category == Given(p.category, x.category)
    && y.status == Given(p.status, x.status)
    && IsPriced(y, Given(p.quantity, x.quantity), Given(p.unitCost, x.unitCost), x.actualCost)
  }

  lemma PricedHolds(y: Item, quantity: real, unitCost: real, actual: int)
    requires y.quantity == Thousandths(quantity) && y.unitCost == Hundredths(unitCost) && y.actualCost == actual
    requires var (total, variance) := CalculateCost(quantity, unitCost, actual);
             y.totalCost == Stored(total) && y.variance == Stored(variance)
    ensures IsPriced(y, quantity, unitCost, actual)
  {
    CostHolds(quantity, unitCost, actual);
  }

  lemma CostHolds(quantity: real, unitCost: real, actual: int)
    ensures Cost(quantity, unitCost) == quantity * unitCost * 100.0
    ensures KeptAs(Cost(quantity, unitCost), Stored(Cost(quantity, unitCost)))
    ensures KeptAs(Cost(quantity, unitCost) - actual as real, Stored(Cost(quantity, unitCost) - actual as real))
  {
    StoredIsNearest(Cost(quantity, unitCost), Stored(Cost(quantity, unitCost)));
    StoredIsNearest(Cost(quantity, unitCost) - actual as real, Stored(Cost(quantity, unitCost) - actual as real));
  }

  lemma PatchedHolds(x: Item, p: Patch)
    ensures IsPatched(x, p, Patched(x, p))
  {
    PricedHolds(Patched(x, p), Or(p.quantity, x.quantity), Or(p.unitCost, x.unitCost), x.actualCost);
  }

  /** An item that stands and is not approved, fields that make sense, and no other row of the new key. */
  ghost predicate CanUpdate(items: seq<Item>, i: nat, p: Patch) {
    && i < |items| && items[i].latest && items[i].status != Deleted && items[i].approval != Approved
    && p.name != Some("")
    && (p.quantity.Some? ==> p.quantity.value > 0.0) && (p.unitCost.Some? ==> p.unitCost.value > 0.0)
    && forall j :: 0 <= j < |items| && j != i ==>
         !(&& items[j].group == items[i].group && items[j].version == items[i].version
           && items[j].name == Given(p.name, items[i].name)
           && items[j].category == Given(p.category, items[i].category))
  }

  lemma UpdateItemHolds(s: Book, i: nat, p: Patch)
    ensures UpdateItem(s, i, p).Some? <==> CanUpdate(s.items, i, p)
    ensures UpdateItem(s, i, p).Some? ==>
              var s' := UpdateItem(s, i, p).value;
              && s'.groups == s.groups && s'.nextGroup == s.nextGroup && |s'.items| == |s.items|
              && IsPatched(s.items[i], p, s'.items[i])
              && forall j :: 0 <= j < |s.items| && j != i ==> s'.items[j] == s.items[j]
  {
    if i < |s.items| {
      PatchedHolds(s.items[i], p);
      var y := Patched(s.items[i], p);
      assert KeyFreeBut(s.items, i, y) <==> forall j :: 0 <= j < |s.items| && j != i ==>
               !(s.items[j].group == y.group && s.items[j].version == y.version
                 && s.items[j].name == y.name && s.items[j].category == y.category);
    }
  }

  /** A fresh draft of a row under the next version: same work, same costs, no actuals. */
  ghost predicate IsCopy(x: Item, group: int, version: int, y: Item) {
    && y.project == x.project && y.group == group && y.version == version && y.latest
    && y.name == x.name && y.category == x.category
    && y.quantity == x.quantity && y.unitCost == x.unitCost && y.totalCost == x.totalCost
    && y.actualCost == 0 && y.variance == 0 && y.status == Active && y.approval == Draft
  }

  ghost predicate Rising(js: seq<int>) {
    forall i, j :: 0 <= i < j < |js| ==> js[i] < js[j]
  }

  /** `copies` are copies of the undeleted rows of one version, in row order; js are their positions. */
  ghost predicate CopiesRows(items: seq<Item>, group: int, v: int, w: int, copies: seq<Item>, js: seq<int>) {
    && |js| == |copies| && Rising(js)
    && (forall j :: j in js <==> 0 <= j < |items| && items[j].group == group && items[j].version == v
                                 && items[j].status != Deleted)
    && forall k :: 0 <= k < |js| && 0 <= js[k] < |items| ==> IsCopy(items[js[k]], group, w, copies[k])
  }

  lemma CopyAppends(init: seq<Item>, x: Item, group: int, v: int, w: int, copies: seq<Item>, js: seq<int>)
    requires CopiesRows(init, group, v, w, copies, js)
    ensures x.group == group && x.version == v && x.status != Deleted ==>
              CopiesRows(init + [x], group, v, w, copies + [Copy(x, group, w)], js + [|init|])
    ensures !(x.group == group && x.version == v && x.status != Deleted) ==>
              CopiesRows(init + [x], group, v, w, copies, js)
  {
    forall k | 0 <= k < |js|
      ensures 0 <= js[k] < |init|
    {
      assert js[k] in js;
    }
    assert forall j :: j in js + [|init|] <==> j in js || j == |init|;
  }

  lemma {:induction false} CopiesHold(items: seq<Item>, group: int, v: int, w: int) returns (js: seq<int>)
    ensures CopiesRows(items, group, v, w, Copies(items, group, v, w), js)
  {
    js := [];
    if items != [] {
      var init, x := items[..|items| - 1], items[|items| - 1];
      assert items == init + [x];
      js := CopiesHold(init, group, v, w);
      CopyAppends(init, x, group, v, w, Copies(init, group, v, w), js);
      if Copied(x, group, v) {
        js := js + [|init|];
      } else {
        assert Copies(init, group, v, w) + [] == Copies(init, group, v, w);
      }
    }
  }

  /** Row by row: those of the old version lose their flag, and nothing else of any row changes. */
  ghost predicate Retires(items: seq<Item>, group: int, v: int, items': seq<Item>) {
    |items'| == |items| && forall i :: 0 <= i < |items| ==>
      items'[i] == if items[i].group == group && items[i].version == v then items[i].(latest := false) else items[i]
  }

  /**
   * A new version: the group raised and renamed after the base row, the old version retired,
   * and behind the old rows the copies of its undeleted rows, in order.
   */
  ghost predicate MakesVersion(s: Book, s': Book, group: int, base: nat) {
    && base < |s.items| && group in s.groups && s'.nextGroup == s.nextGroup
    && s'.groups == s.groups[group := Group(s.groups[group].project, s.items[base].name, s.groups[group].current + 1)]
    && RetiresAndCopies(s.items, s'.items, group, s.items[base].version, s.groups[group].current + 1)
  }

  ghost predicate RetiresAndCopies(items: seq<Item>, items': seq<Item>, group: int, v: int, w: int) {
    && |items| <= |items'| && Retires(items, group, v, items'[..|items|])
    && HasCopies(items, group, v, w, items'[|items|..])
  }

  ghost predicate HasCopies(items: seq<Item>, group: int, v: int, w: int, copies: seq<Item>) {
    exists js :: CopiesRows(items, group, v, w, copies, js)
  }

  /** Only the flag of a retired row differs, which its copy does not take over. */
  lemma RetiredCopiesAlike(items: seq<Item>, group: int, v: int, w: int, copies: seq<Item>, js: seq<int>)
    requires CopiesRows(RetireAll(items, group, v), group, v, w, copies, js)
    ensures CopiesRows(items, group, v, w, copies, js)
  {
    RetireFacts(items, group, v);
  }

  lemma VersionHasCopies(items: seq<Item>, group: int, v: int, w: int)
    ensures var retired := RetireAll(items, group, v);
            RetiresAndCopies(items, retired + Copies(retired, group, v, w), group, v, w)
  {
    var retired := RetireAll(items, group, v);
    var copies := Copies(retired, group, v, w);
    RetireFacts(items, group, v);
    var js := CopiesHold(retired, group, v, w);
    RetiredCopiesAlike(items, group, v, w, copies, js);
    Halves(retired, copies);
  }

  lemma Halves<T>(xs: seq<T>, ys: seq<T>)
    ensures (xs + ys)[..|xs|] == xs && (xs + ys)[|xs|..] == ys
  {
  }

  /** Versions are made of approved standing items of known groups only. */
  lemma CreateVersionIff(s: Book, group: int, base: nat)
    ensures CreateVersion(s, group, base).Some? <==>
              base < |s.items| && Standing(s.items[base], group) && s.items[base].approval == Approved
              && group in s.groups
  {
  }

  lemma CreateVersionHolds(s: Book, group: int, base: nat)
    requires CreateVersion(s, group, base).Some?
    ensures MakesVersion(s, CreateVersion(s, group, base).value, group, base)
  {
    VersionHasCopies(s.items, group, s.items[base].version, s.groups[group].current + 1);
  }

  // ---------------------------------------------------------------- the summary

  datatype Column = Count | Estimated | Actual

  /** What a row adds to a column of boq_summary: the latest undeleted items of a project count. */
  function Share(x: Item, project: int, c: Column): int {
    if x.project != project || !x.latest || x.status.Deleted? then 0
    else
      match c
      case Count => 1
      case Estimated => x.totalCost
      case Actual => x.actualCost
  }

  /** A column over the first n rows. */
  function TotalTo(items: seq<Item>, n: nat, project: int, c: Column): int
    requires n <= |items|
  {
    if n == 0 then 0 else TotalTo(items, n - 1, project, c) + Share(items[n - 1], project, c)
  }

  function Total(items: seq<Item>, project: int, c: Column): int {
    TotalTo(items, |items|, project, c)
  }

  /** What a new version of the group drops of a row: its actual cost. */
  function Dropped(x: Item, group: int, project: int, c: Column): int {
    if c.Actual? && x.group == group then Share(x, project, c) else 0
  }

  function DroppedTo(items: seq<Item>, n: nat, group: int, project: int, c: Column): int
    requires n <= |items|
  {
    if n == 0 then 0 else DroppedTo(items, n - 1, group, project, c) + Dropped(items[n - 1], group, project, c)
  }

  /** The group's actuals that the summary of the project counts. */
  function GroupActuals(items: seq<Item>, group: int, project: int): int {
    DroppedTo(items, |items|, group, project, Actual)
  }

  /** What the copy of a row adds to a column. */
  function CopyShare(r: Item, group: int, v: int, project: int, c: Column): int {
    if Copied(r, group, v) then Share(Copy(r, group, v + 1), project, c) else 0
  }

  function CopyTotalTo(items: seq<Item>, n: nat, group: int, v: int, project: int, c: Column): int
    requires n <= |items|
  {
    if n == 0 then 0
    else CopyTotalTo(items, n - 1, group, v, project, c) + CopyShare(items[n - 1], group, v, project, c)
  }

  lemma {:induction false} TotalPrefix(xs: seq<Item>, ys: seq<Item>, n: nat, project: int, c: Column)
    requires n <= |xs|
    ensures TotalTo(xs + ys, n, project, c) == TotalTo(xs, n, project, c)
  {
    if n > 0 {
      TotalPrefix(xs, ys, n - 1, project, c);
    }
  }

  lemma {:induction false} TotalBeyond(xs: seq<Item>, ys: seq<Item>, k: nat, project: int, c: Column)
    requires k <= |ys|
    ensures TotalTo(xs + ys, |xs| + k, project, c) == Total(xs, project, c) + TotalTo(ys, k, project, c)
  {
    if k == 0 {
      TotalPrefix(xs, ys, |xs|, project, c);
    } else {
      TotalBeyond(xs, ys, k - 1, project, c);
      assert (xs + ys)[|xs| + k - 1] == ys[k - 1];
    }
  }

  lemma TotalOfConcat(xs: seq<Item>, ys: seq<Item>, project: int, c: Column)
    ensures Total(xs + ys, project, c) == Total(xs, project, c) + Total(ys, project, c)
  {
    TotalBeyond(xs, ys, |ys|, project, c);
  }

  lemma TotalOfOne(x: Item, project: int, c: Column)
    ensures Total([x], project, c) == Share(x, project, c)
    ensures Share(x, project, c) ==
            if x.project == project && x.latest && x.status != Deleted
            then if c == Count then 1 else if c == Estimated then x.totalCost else x.actualCost
            else 0
  {
    assert TotalTo([x], 0, project, c) == 0;
  }

  /** A column of the copies is the sum of what each row's copy adds. */
  lemma {:induction false} CopiesTotal(items: seq<Item>, n: nat, group: int, v: int, project: int, c: Column)
    requires n <= |items|
    ensures Total(Copies(items[..n], group, v, v + 1), project, c) == CopyTotalTo(items, n, group, v, project, c)
  {
    if n > 0 {
      var init, x := items[..n - 1], items[n - 1];
      assert items[..n][..n - 1] == init;
      CopiesTotal(items, n - 1, group, v, project, c);
      if Copied(x, group, v) {
        TotalOfConcat(Copies(init, group, v, v + 1), [Copy(x, group, v + 1)], project, c);
        TotalOfOne(Copy(x, group, v + 1), project, c);
      } else {
        assert Copies(init, group, v, v + 1) + [] == Copies(init, group, v, v + 1);
      }
    }
  }

  /** A row outside the group stays; one inside hands its share, without actuals, to its copy. */
  lemma RowCarriesItsShare(x: Item, r: Item, group: int, v: int, project: int, c: Column)
    requires x.group == group ==> (x.latest <==> x.version == v)
    requires r == Retired(x, group, v)
    ensures Share(r, project, c) + CopyShare(r, group, v, project, c)
         == Share(x, project, c) - Dropped(x, group, project, c)
  {
  }

  ghost predicate AllRetired(items: seq<Item>, retired: seq<Item>, group: int, v: int) {
    |retired| == |items| && forall i :: 0 <= i < |items| ==> retired[i] == Retired(items[i], group, v)
  }

  lemma {:induction false} CopiesCarryTheEstimate(
      items: seq<Item>, retired: seq<Item>, n: nat, group: int, v: int, project: int, c: Column)
    requires n <= |items| && LatestIs(items, group, v) && AllRetired(items, retired, group, v)
    ensures TotalTo(retired, n, project, c) + CopyTotalTo(retired, n, group, v, project, c)
         == TotalTo(items, n, project, c) - DroppedTo(items, n, group, project, c)
  {
    if n > 0 {
      CopiesCarryTheEstimate(items, retired, n - 1, group, v, project, c);
      RowCarriesItsShare(items[n - 1], retired[n - 1], group, v, project, c);
    }
  }

  lemma {:induction false} OnlyActualsDrop(items: seq<Item>, n: nat, group: int, project: int, c: Column)
    requires n <= |items| && !c.Actual?
    ensures DroppedTo(items, n, group, project, c) == 0
  {
    if n > 0 {
      OnlyActualsDrop(items, n - 1, group, project, c);
    }
  }

  lemma RowsAndCopies(retired: seq<Item>, group: int, v: int, project: int, c: Column)
    ensures Total(retired + Copies(retired, group, v, v + 1), project, c)
         == TotalTo(retired, |retired|, project, c) + CopyTotalTo(retired, |retired|, group, v, project, c)
  {
    TotalOfConcat(retired, Copies(retired, group, v, v + 1), project, c);
    CopiesTotal(retired, |retired|, group, v, project, c);
    assert retired[..|retired|] == retired;
  }

  /** The rows and their copies together carry every column, but for what is dropped. */
  lemma RetiredCarry(items: seq<Item>, group: int, v: int, project: int, c: Column)
    requires LatestIs(items, group, v)
    ensures var retired := RetireAll(items, group, v);
            Total(retired + Copies(retired, group, v, v + 1), project, c)
            == Total(items, project, c) - DroppedTo(items, |items|, group, project, c)
  {
    var retired := RetireAll(items, group, v);
    RetireFacts(items, group, v);
    CopiesCarryTheEstimate(items, retired, |items|, group, v, project, c);
    RowsAndCopies(retired, group, v, project, c);
  }

  lemma VersionCarries(s: Book, group: int, base: nat, project: int, c: Column)
    requires Inv(s) && CreateVersion(s, group, base).Some?
    ensures Total(CreateVersion(s, group, base).value.items, project, c)
         == Total(s.items, project, c) - DroppedTo(s.items, |s.items|, group, project, c)
  {
    LatestIsCurrent(s, group, base);
    RetiredCarry(s.items, group, s.items[base].version, project, c);
  }

  /** A new version keeps every project's item count and estimate, and drops exactly the group's actuals. */
  lemma VersionConservesTheEstimate(s: Book, group: int, base: nat, project: int)
    requires Inv(s) && CreateVersion(s, group, base).Some?
    ensures var items, items' := s.items, CreateVersion(s, group, base).value.items;
            && Total(items', project, Count) == Total(items, project, Count)
            && Total(items', project, Estimated) == Total(items, project, Estimated)
            && Total(items', project, Actual) == Total(items, project, Actual) - GroupActuals(items, group, project)
  {
    VersionCarries(s, group, base, project, Count);
    VersionCarries(s, group, base, project, Estimated);
    VersionCarries(s, group, base, project, Actual);
    OnlyActualsDrop(s.items, |s.items|, group, project, Count);
    OnlyActualsDrop(s.items, |s.items|, group, project, Estimated);
  }

  // ---------------------------------------------------------------- the handlers in place

  class BoqBook {
    var groups: map<int, Group>
    var nextGroup: int
    var items: seq<Item>

    function State(): Book
      reads this
    {
      Book(groups, nextGroup, items)
    }

    constructor ()
      ensures State() == EMPTY
    {
      groups, nextGroup, items := map[], 1, [];
    }

    method CreateBoqItem(project: int, p: Payload) returns (ok: bool)
      modifies this
      ensures ok <==> p.name != "" && p.quantity > 0.0 && p.unitCost > 0.0
      ensures ok ==> |items| == |old(items)| + 1 && items[..|old(items)|] == old(items)
                     && IsNewItem(items[|old(items)|], project, old(nextGroup), 1, p)
                     && groups == old(groups)[old(nextGroup) := Group(project, p.name, 1)]
      ensures State() == Step(old(State()), DoCreate(project, p))
    {
      if !PayloadOk(p) {
        return false;
      }
      NewItemHolds(project, nextGroup, 1, p);
      var (total, variance) := CalculateCost(p.quantity, p.unitCost, 0);
      var id := nextGroup;
      groups := groups[id := Group(project, p.name, 1)];
      nextGroup := nextGroup + 1;
      items := items + [Item(project, id, 1, true, p.name, p.category, Thousandths(p.quantity), Hundredths(p.unitCost),
                             Stored(total), 0, Stored(variance), p.status, Draft)];
      ok := true;
    }

    method FindParent(group: int) returns (parent: Option<nat>)
      ensures parent == Parent(items, group)
      ensures parent.Some? ==> parent.value < |items|
    {
      for i := 0 to |items|
        invariant Parent(items[..i], group).None?
      {
        assert items[..i + 1][..i] == items[..i];
        if Live(items[i], group) {
          parent := Some(i);
          FirstStays(items, group, i + 1);
          return;
        }
      }
      assert items[..|items|] == items;
      parent := None;
    }

    method AddItemsToGroup(group: int, ps: seq<Payload>) returns (ok: bool)
      modifies this`items
      ensures ok == AddItems(old(State()), group, ps).Some?
      ensures if ok then Adds(old(State()), State(), group, ps) else items == old(items)
      ensures State() == Step(old(State()), DoAdd(group, ps))
    {
      AddItemsHold(State(), group, ps);
      var found := FindParent(group);
      if found.None? {
        return false;
      }
      var parent := items[found.value];
      if parent.approval.Approved? {
        return false;
      }
      var rollback := items;
      for k := 0 to |ps|
        invariant Insert(items, parent, ps[k..]) == Insert(rollback, parent, ps)
      {
        var p := ps[k];
        assert ps[k..][0] == p && ps[k..][1..] == ps[k + 1..];
        var x := NewItem(parent.project, parent.group, parent.version, p);
        if !PayloadOk(p) || !KeyFree(items, x) {
          items := rollback;
          return false;
        }
        items := items + [x];
      }
      ok := true;
    }

    method UpdateBoqItem(i: nat, p: Patch) returns (ok: bool)
      modifies this`items
      ensures ok <==> CanUpdate(old(items), i, p)
      ensures if ok then i < |items| == |old(items)| && IsPatched(old(items)[i], p, items[i])
                         && forall j :: 0 <= j < |items| && j != i ==> items[j] == old(items)[j]
              else items == old(items)
      ensures State() == Step(old(State()), DoUpdate(i, p))
    {
      UpdateItemHolds(State(), i, p);
      if !Editable(items, i) || !PatchOk(p) {
        return false;
      }
      var obj := items[i];
      if p.category.Some? { obj := obj.(category := p.category.value); }
      if p.name.Some? { obj := obj.(name := p.name.value); }
      var quantity, unitCost := obj.quantity, obj.unitCost;
      if p.quantity.Some? { quantity := p.quantity.value; }
      if p.unitCost.Some? { unitCost := p.unitCost.value; }
      if p.status.Some? { obj := obj.(status := p.status.value); }
      var (total, variance) := CalculateCost(quantity, unitCost, obj.actualCost);
      obj := obj.(quantity := Thousandths(quantity), unitCost := Hundredths(unitCost),
                  totalCost := Stored(total), variance := Stored(variance));
      if !KeyFreeBut(items, i, obj) {
        return false;
      }
      items := items[i := obj];
      ok := true;
    }

    method DeleteBoqItem(i: nat) returns (ok: bool)
      modifies this`items
      ensures ok <==> i < |old(items)| && old(items)[i].latest && old(items)[i].status != Deleted
                      && old(items)[i].approval != Approved
      ensures items == if ok then old(items)[i := old(items)[i].(status := Deleted)] else old(items)
      ensures State() == Step(old(State()), DoDelete(i))
    {
      if !Editable(items, i) {
        return false;
      }
      items := items[i := items[i].(status := Deleted)];
      ok := true;
    }

    /** The bulk UPDATE that clears the latest flag of one version. */
    method ClearLatest(group: int, version: int)
      modifies this`items
      ensures items == RetireAll(old(items), group, version)
    {
      var rows := items;
      for i := 0 to |rows|
        invariant |items| == |rows|
        invariant forall k :: 0 <= k < i ==> items[k] == Retired(rows[k], group, version)
        invariant forall k :: i <= k < |rows| ==> items[k] == rows[k]
      {
        if items[i].group == group && items[i].version == version && items[i].latest {
          items := items[i := items[i].(latest := false)];
        }
      }
      RetireFacts(rows, group, version);
    }

    method CopyVersion(group: int, version: int, newVersion: int) returns (copies: seq<Item>)
      ensures copies == Copies(items, group, version, newVersion)
      ensures HasCopies(items, group, version, newVersion, copies)
    {
      ghost var js := CopiesHold(items, group, version, newVersion);
      copies := [];
      for i := 0 to |items|
        invariant copies == Copies(items[..i], group, version, newVersion)
      {
        assert items[..i + 1][..i] == items[..i];
        var r := items[i];
        if r.group == group && r.version == version && !r.status.Deleted? {
          copies := copies + [Item(r.project, group, newVersion, true, r.name, r.category, r.quantity, r.unitCost,
                                   r.totalCost, 0, 0, Active, Draft)];
        }
      }
      assert items[..|items|] == items;
    }

    method CreateBoqVersion(group: int, base: nat) returns (ok: bool)
      modifies this`groups, this`items
      ensures ok == CreateVersion(old(State()), group, base).Some?
      ensures State() == Step(old(State()), DoVersion(group, base))
      ensures if ok then MakesVersion(old(State()), State(), group, base) else State() == old(State())
    {
      if !IsBase(State(), group, base) || !items[base].approval.Approved? || group !in groups {
        return false;
      }
      CreateVersionHolds(State(), group, base);
      WriteVersion(group, base);
      ok := true;
    }

    /** The writes of an accepted call. */
    method WriteVersion(group: int, base: nat)
      requires CreateVersion(State(), group, base).Some?
      modifies this`groups, this`items
      ensures State() == CreateVersion(old(State()), group, base).value
    {
      var b := items[base];
      var newVersion := groups[group].current + 1;
      groups := groups[group := groups[group].(current := newVersion, name := b.name)];
      ClearLatest(group, b.version);
      var copies := CopyVersion(group, b.version, newVersion);
      items := items + copies;
    }
  }

  lemma {:induction false} FirstStays(items: seq<Item>, group: int, k: nat)
    requires k <= |items| && Parent(items[..k], group).Some?
    ensures Parent(items, group) == Parent(items[..k], group)
    decreases |items|
  {
    if k < |items| {
      var n := |items| - 1;
      assert items[..n][..k] == items[..k];
      FirstStays(items[..n], group, k);
    } else {
      assert items[..k] == items;
    }
  }
}
