/**
 * The account tree of app/api/accountant.py: two passes over the accounts, one
 * node each, every node appended to its parent's children or to the roots.
 */
module Forest {
  import opened Prelude

  /** A parent id of 0 counts as none. */
  datatype Account = Account(id: int, parent: Option<int>)

  function Ids(accounts: seq<Account>): seq<int> {
    if accounts == [] then [] else Ids(accounts[..|accounts| - 1]) + [accounts[|accounts| - 1].id]
  }

  function IdSet(accounts: seq<Account>): set<int> {
    set a | a in accounts :: a.id
  }

  predicate HasParent(ids: set<int>, a: Account) {
    a.parent.Some? && a.parent.value != 0 && a.parent.value in ids
  }

  /** In account order, the ids whose parent is `p`; the rest are roots. */
  function Children(ids: set<int>, accounts: seq<Account>, p: int): seq<int> {
    if accounts == [] then []
    else
      var a := accounts[|accounts| - 1];
      Children(ids, accounts[..|accounts| - 1], p) + (if HasParent(ids, a) && a.parent.value == p then [a.id] else [])
  }

  function Roots(ids: set<int>, accounts: seq<Account>): seq<int> {
    if accounts == [] then []
    else
      var a := accounts[|accounts| - 1];
      Roots(ids, accounts[..|accounts| - 1]) + (if HasParent(ids, a) then [] else [a.id])
  }

  // ---------------------------------------------------------------- placement on the fields

  /** The account hangs under p: that is its parent, not 0, and the id of an account. */
  ghost predicate Hangs(accounts: seq<Account>, a: Account, p: int) {
    a.parent == Some(p) && p != 0 && exists b :: b in accounts && b.id == p
  }

  ghost predicate Rising(js: seq<int>) {
    forall i, j :: 0 <= i < j < |js| ==> js[i] < js[j]
  }

  /** The listed ids are those of the accounts at the positions `js`, in account order. */
  ghost predicate ListedAt(xs: seq<int>, accounts: seq<Account>, js: seq<int>) {
    |js| == |xs| && Rising(js) && forall k :: 0 <= k < |js| ==> 0 <= js[k] < |accounts| && accounts[js[k]].id == xs[k]
  }

  /** `xs` are the ids of all accounts that hang under p, in account order. */
  ghost predicate HangUnder(xs: seq<int>, accounts: seq<Account>, p: int) {
    exists js :: ListedAt(xs, accounts, js)
                 && forall j :: j in js <==> 0 <= j < |accounts| && Hangs(accounts, accounts[j], p)
  }

  /** `xs` are the ids of all accounts that hang nowhere, in account order. */
  ghost predicate HangNowhere(xs: seq<int>, accounts: seq<Account>) {
    exists js :: ListedAt(xs, accounts, js)
                 && forall j :: j in js <==> 0 <= j < |accounts| && !exists p :: Hangs(accounts, accounts[j], p)
  }

  lemma HasParentIff(accounts: seq<Account>, a: Account, p: int)
    ensures Hangs(accounts, a, p) <==> HasParent(IdSet(accounts), a) && a.parent.value == p
  {
  }

  lemma ListedAppend(xs: seq<int>, init: seq<Account>, a: Account, js: seq<int>)
    requires ListedAt(xs, init, js)
    ensures ListedAt(xs, init + [a], js) && ListedAt(xs + [a.id], init + [a], js + [|init|])
  {
  }

  /** Where the children of p stand. */
  lemma {:induction false} ChildrenAt(ids: set<int>, accounts: seq<Account>, p: int) returns (js: seq<int>)
    ensures ListedAt(Children(ids, accounts, p), accounts, js)
    ensures forall j :: j in js <==> 0 <= j < |accounts| && HasParent(ids, accounts[j]) && accounts[j].parent.value == p
  {
    js := [];
    if accounts != [] {
      var init, a := accounts[..|accounts| - 1], accounts[|accounts| - 1];
      assert accounts == init + [a];
      js := ChildrenAt(ids, init, p);
      ListedAppend(Children(ids, init, p), init, a, js);
      if HasParent(ids, a) && a.parent.value == p {
        js := js + [|init|];
      } else {
        assert Children(ids, init, p) + [] == Children(ids, init, p);
      }
    }
  }

  lemma {:induction false} RootsAt(ids: set<int>, accounts: seq<Account>) returns (js: seq<int>)
    ensures ListedAt(Roots(ids, accounts), accounts, js)
    ensures forall j :: j in js <==> 0 <= j < |accounts| && !HasParent(ids, accounts[j])
  {
    js := [];
    if accounts != [] {
      var init, a := accounts[..|accounts| - 1], accounts[|accounts| - 1];
      assert accounts == init + [a];
      js := RootsAt(ids, init);
      ListedAppend(Roots(ids, init), init, a, js);
      if HasParent(ids, a) {
        assert Roots(ids, init) + [] == Roots(ids, init);
      } else {
        js := js + [|init|];
      }
    }
  }

  /** Children and roots, told on the parent fields. */
  lemma PlacedByFields(accounts: seq<Account>, p: int)
    ensures HangUnder(Children(IdSet(accounts), accounts, p), accounts, p)
    ensures HangNowhere(Roots(IdSet(accounts), accounts), accounts)
  {
    var js := ChildrenAt(IdSet(accounts), accounts, p);
    var ks := RootsAt(IdSet(accounts), accounts);
    forall a: Account, q
      ensures Hangs(accounts, a, q) <==> HasParent(IdSet(accounts), a) && a.parent.value == q
    {
      HasParentIff(accounts, a, q);
    }
    assert forall j :: 0 <= j < |accounts| && HasParent(IdSet(accounts), accounts[j]) ==>
             Hangs(accounts, accounts[j], accounts[j].parent.value);
  }

  lemma AllPlacedByFields(accounts: seq<Account>)
    ensures forall p :: HangUnder(Children(IdSet(accounts), accounts, p), accounts, p)
    ensures HangNowhere(Roots(IdSet(accounts), accounts), accounts)
    ensures forall id :: id in IdSet(accounts) <==> exists a :: a in accounts && a.id == id
  {
    PlacedByFields(accounts, 0);
    forall p
      ensures HangUnder(Children(IdSet(accounts), accounts, p), accounts, p)
    {
      PlacedByFields(accounts, p);
    }
  }

  // ---------------------------------------------------------------- the builder

  class TreeNode {
    const id: int
    var children: seq<TreeNode>

    constructor (id: int)
      ensures this.id == id && children == []
    {
      this.id := id;
      children := [];
    }
  }

  function NodeIds(nodes: seq<TreeNode>): seq<int> {
    seq(|nodes|, i requires 0 <= i < |nodes| => nodes[i].id)
  }

  /** One node per account id. */
  ghost predicate NodeMap(nodes: map<int, TreeNode>) {
    forall id :: id in nodes ==> nodes[id].id == id
  }

  lemma NodeIdsAppend(nodes: seq<TreeNode>, n: TreeNode)
    ensures NodeIds(nodes + [n]) == NodeIds(nodes) + [n.id]
  {
  }

  /** The listed nodes are the map's own. */
  ghost predicate OwnNodes(nodes: map<int, TreeNode>, list: seq<TreeNode>) {
    forall i :: 0 <= i < |list| ==> list[i].id in nodes && nodes[list[i].id] == list[i]
  }

  /** First pass: a fresh childless node per account. */
  method MakeNodes(accounts: seq<Account>) returns (nodes: map<int, TreeNode>)
    ensures NodeMap(nodes) && nodes.Keys == IdSet(accounts)
    ensures forall id :: id in nodes ==> fresh(nodes[id]) && nodes[id].children == []
  {
    nodes := map[];
    for i := 0 to |accounts|
      invariant NodeMap(nodes) && nodes.Keys == IdSet(accounts[..i])
      invariant forall id :: id in nodes ==> fresh(nodes[id]) && nodes[id].children == []
    {
      var node := new TreeNode(accounts[i].id);
      assert accounts[..i + 1] == accounts[..i] + [accounts[i]];
      nodes := nodes[accounts[i].id := node];
    }
    assert accounts[..|accounts|] == accounts;
  }

  ghost predicate ChildrenAre(nodes: map<int, TreeNode>, ids: set<int>, accounts: seq<Account>)
    reads nodes.Values
  {
    forall id :: id in nodes ==>
      NodeIds(nodes[id].children) == Children(ids, accounts, id) && OwnNodes(nodes, nodes[id].children)
  }

  /** Append an account's node to the children of its parent's node. */
  method Attach(nodes: map<int, TreeNode>, a: Account, ghost ids: set<int>, ghost before: seq<Account>)
    requires NodeMap(nodes) && a.id in nodes && HasParent(ids, a) && a.parent.value in nodes
    requires ChildrenAre(nodes, ids, before)
    modifies nodes[a.parent.value]
    ensures ChildrenAre(nodes, ids, before + [a])
  {
    var parent := nodes[a.parent.value];
    NodeIdsAppend(parent.children, nodes[a.id]);
    parent.children := parent.children + [nodes[a.id]];
    assert (before + [a])[..|before|] == before;
    forall id | id in nodes
      ensures NodeIds(nodes[id].children) == Children(ids, before + [a], id) && OwnNodes(nodes, nodes[id].children)
    {
      assert old(NodeIds(nodes[id].children)) == Children(ids, before, id);
      assert old(OwnNodes(nodes, nodes[id].children));
    }
  }

  /** Second pass: every node goes under its parent's node, or to the roots. */
  method GetAccountsTree(accounts: seq<Account>) returns (tree: seq<TreeNode>, nodes: map<int, TreeNode>)
    ensures NodeMap(nodes) && nodes.Keys == IdSet(accounts)
    ensures forall id :: id in nodes ==> fresh(nodes[id])
    ensures NodeIds(tree) == Roots(IdSet(accounts), accounts) && OwnNodes(nodes, tree)
    ensures ChildrenAre(nodes, IdSet(accounts), accounts)
    ensures forall id :: id in nodes <==> exists a :: a in accounts && a.id == id
    ensures forall id :: id in nodes ==> HangUnder(NodeIds(nodes[id].children), accounts, id)
    ensures HangNowhere(NodeIds(tree), accounts)
  {
    nodes := MakeNodes(accounts);
    ghost var ids := IdSet(accounts);
    tree := [];
    for i := 0 to |accounts|
      invariant NodeIds(tree) == Roots(ids, accounts[..i]) && OwnNodes(nodes, tree)
      invariant ChildrenAre(nodes, ids, accounts[..i])
    {
      var acc := accounts[i];
      assert acc in accounts && acc.id in nodes;
      assert accounts[..i + 1] == accounts[..i] + [acc] && accounts[..i + 1][..i] == accounts[..i];
      if acc.parent.Some? && acc.parent.value != 0 && acc.parent.value in nodes {
        Attach(nodes, acc, ids, accounts[..i]);
      } else {
        NodeIdsAppend(tree, nodes[acc.id]);
        tree := tree + [nodes[acc.id]];
      }
    }
    assert accounts[..|accounts|] == accounts;
    AllPlacedByFields(accounts);
  }

  // ---------------------------------------------------------------- parent chains

  type Links = map<int, int>

  /** The k-th ancestor, if the chain is that long. */
  function Anc(par: Links, id: int, k: nat): Option<int> {
    if k == 0 then Some(id)
    else
      match Anc(par, id, k - 1)
      case None => None
      case Some(a) => if a in par then Some(par[a]) else None
  }

  lemma {:induction false} AncFirst(par: Links, id: int, k: nat)
    ensures Anc(par, id, k + 1) == if id in par then Anc(par, par[id], k) else None
  {
    if k > 0 {
      AncFirst(par, id, k - 1);
    }
  }

  lemma {:induction false} AncSplit(par: Links, id: int, j: nat, k: nat)
    ensures Anc(par, id, j + k) == if Anc(par, id, j).Some? then Anc(par, Anc(par, id, j).value, k) else None
  {
    if k > 0 {
      AncSplit(par, id, j, k - 1);
    }
  }

  /** After k links the chain stands on a root. */
  ghost predicate EndsAt(par: Links, id: int, k: nat) {
    Anc(par, id, k).Some? && Anc(par, id, k).value !in par
  }

  ghost predicate Ends(par: Links, id: int) {
    exists k: nat :: EndsAt(par, id, k)
  }

  lemma EndsExactly(par: Links, id: int, d: nat, k: nat)
    requires EndsAt(par, id, d)
    ensures EndsAt(par, id, k) <==> k == d
  {
    if EndsAt(par, id, k) {
      EndsOnce(par, id, d, k);
    }
  }

  lemma EndsOnce(par: Links, id: int, j: nat, k: nat)
    requires EndsAt(par, id, j) && EndsAt(par, id, k)
    ensures j == k
  {
    if j < k {
      AncSplit(par, id, j + 1, k - j - 1);
    }
    if k < j {
      AncSplit(par, id, k + 1, j - k - 1);
    }
  }

  /** Two places of the chain hold the same account. */
  ghost predicate Repeats(par: Links, id: int, i: nat, j: nat) {
    i < j && Anc(par, id, i).Some? && Anc(par, id, i) == Anc(par, id, j)
  }

  ghost predicate EntersCycle(par: Links, id: int) {
    exists i: nat, j: nat :: Repeats(par, id, i, j)
  }

  lemma RepeatNeverEnds(par: Links, id: int, i: nat, j: nat, k: nat)
    requires Repeats(par, id, i, j)
    ensures !EndsAt(par, id, k)
  {
    if EndsAt(par, id, k) {
      if k < i {
        AncSplit(par, id, k + 1, i - k - 1);
      } else {
        AncSplit(par, id, i, k - i);
        AncSplit(par, id, j, k - i);
        assert EndsAt(par, id, j + (k - i));
        EndsOnce(par, id, k, j + (k - i));
      }
    }
  }

  function Chain(par: Links, id: int, n: nat): set<int> {
    if n == 0 then {}
    else Chain(par, id, n - 1) + (if Anc(par, id, n - 1).Some? then {Anc(par, id, n - 1).value} else {})
  }

  lemma {:induction false} InChain(par: Links, id: int, n: nat, x: int)
    ensures x in Chain(par, id, n) <==> exists k: nat :: k < n && Anc(par, id, k) == Some(x)
  {
    if n > 0 {
      InChain(par, id, n - 1, x);
      var last: nat := n - 1;
      assert x in Chain(par, id, n) <==> x in Chain(par, id, last) || Anc(par, id, last) == Some(x);
      if x in Chain(par, id, n) {
        var k: nat :| k < n && Anc(par, id, k) == Some(x) by {
          assert Anc(par, id, last) == Some(x) ==> last < n;
        }
      } else {
        forall k: nat | k < n
          ensures Anc(par, id, k) != Some(x)
        {
          assert k < last || k == last;
        }
      }
    }
  }

  /** A chain of n links without a repeat visits n different accounts. */
  lemma {:induction false} ChainSize(par: Links, id: int, n: nat)
    requires n > 0 ==> Anc(par, id, n - 1).Some?
    requires !EntersCycle(par, id)
    ensures |Chain(par, id, n)| == n
    ensures n > 0 ==> Anc(par, id, n - 1).Some?
  {
    if n > 0 {
      var x := Anc(par, id, n - 1).value;
      if n > 1 {
        assert Anc(par, id, n - 2).Some?;
      }
      ChainSize(par, id, n - 1);
      InChain(par, id, n - 1, x);
      if x in Chain(par, id, n - 1) {
        var k: nat :| k < n - 1 && Anc(par, id, k) == Some(x);
        assert Repeats(par, id, k, n - 1);
      }
    }
  }

  /** Some chain stops within as many links as there are linked accounts, unless it cycles. */
  lemma {:induction false} EndsWithin(par: Links, id: int, n: nat)
    requires !EntersCycle(par, id) && n == |par.Keys|
    ensures exists k: nat :: k <= n && EndsAt(par, id, k)
  {
    if forall k: nat :: k <= n ==> !EndsAt(par, id, k) {
      AllLinked(par, id, n);
      ChainSize(par, id, n + 1);
      forall x | x in Chain(par, id, n + 1)
        ensures x in par.Keys
      {
        InChain(par, id, n + 1, x);
      }
      SubsetSize(Chain(par, id, n + 1), par.Keys);
    }
  }

  lemma {:induction false} AllLinked(par: Links, id: int, n: nat)
    requires forall k: nat :: k <= n ==> !EndsAt(par, id, k)
    ensures forall k: nat :: k <= n ==> Anc(par, id, k).Some? && Anc(par, id, k).value in par
  {
    if n > 0 {
      AllLinked(par, id, n - 1);
      assert Anc(par, id, n - 1).value in par;
    }
    assert !EndsAt(par, id, n);
  }

  lemma SubsetSize(a: set<int>, b: set<int>)
    requires a <= b
    ensures |a| <= |b|
  {
    assert b == a + (b - a);
  }

  /** A chain ends exactly when it enters no cycle. */
  lemma EndsIffNoCycle(par: Links, id: int)
    ensures Ends(par, id) <==> !EntersCycle(par, id)
  {
    if EntersCycle(par, id) {
      var i: nat, j: nat :| Repeats(par, id, i, j);
      forall k: nat
        ensures !EndsAt(par, id, k)
      {
        RepeatNeverEnds(par, id, i, j, k);
      }
    } else {
      EndsWithin(par, id, |par.Keys|);
    }
  }

  // ---------------------------------------------------------------- placement

  ghost predicate UniqueIds(accounts: seq<Account>) {
    forall i, j :: 0 <= i < j < |accounts| ==> accounts[i].id != accounts[j].id
  }

  /** The parent links of the accounts that have a parent. */
  function LinksOf(ids: set<int>, accounts: seq<Account>): Links {
    if accounts == [] then map[]
    else
      var a := accounts[|accounts| - 1];
      var par := LinksOf(ids, accounts[..|accounts| - 1]);
      if HasParent(ids, a) then par[a.id := a.parent.value] else par
  }

  lemma {:induction false} LinkKeys(ids: set<int>, accounts: seq<Account>)
    ensures LinksOf(ids, accounts).Keys <= IdSet(accounts)
    ensures forall x :: x in LinksOf(ids, accounts) ==> LinksOf(ids, accounts)[x] in ids
  {
    if accounts != [] {
      LinkKeys(ids, accounts[..|accounts| - 1]);
      assert accounts == accounts[..|accounts| - 1] + [accounts[|accounts| - 1]];
    }
  }

  /** The last account's id is new, and the earlier ids are unique. */
  lemma LastIsNew(accounts: seq<Account>)
    requires UniqueIds(accounts) && accounts != []
    ensures var init, a := accounts[..|accounts| - 1], accounts[|accounts| - 1];
            && UniqueIds(init) && a.id !in IdSet(init)
            && accounts == init + [a] && IdSet(accounts) == IdSet(init) + {a.id}
  {
  }

  function Count(xs: seq<int>, x: int): nat {
    if xs == [] then 0 else Count(xs[..|xs| - 1], x) + (if xs[|xs| - 1] == x then 1 else 0)
  }

  lemma {:induction false} CountConcat(xs: seq<int>, ys: seq<int>, x: int)
    ensures Count(xs + ys, x) == Count(xs, x) + Count(ys, x)
  {
    if ys == [] {
      assert xs + ys == xs;
    } else {
      assert (xs + ys)[..|xs + ys| - 1] == xs + ys[..|ys| - 1];
      CountConcat(xs, ys[..|ys| - 1], x);
    }
  }

  lemma {:induction false} CountIsMultiplicity(xs: seq<int>, x: int)
    ensures multiset(xs)[x] == Count(xs, x)
    ensures x in xs <==> Count(xs, x) > 0
  {
    if xs != [] {
      assert xs == xs[..|xs| - 1] + [xs[|xs| - 1]];
      CountIsMultiplicity(xs[..|xs| - 1], x);
    }
  }

  lemma {:induction false} PlacedUnder(ids: set<int>, accounts: seq<Account>, p: int, id: int)
    requires UniqueIds(accounts)
    ensures var par := LinksOf(ids, accounts);
            Count(Children(ids, accounts, p), id) == (if id in par && par[id] == p then 1 else 0)
  {
    if accounts != [] {
      var init, a := accounts[..|accounts| - 1], accounts[|accounts| - 1];
      LastIsNew(accounts);
      PlacedUnder(ids, init, p, id);
      LinkKeys(ids, init);
      CountConcat(Children(ids, init, p), if HasParent(ids, a) && a.parent.value == p then [a.id] else [], id);
    }
  }

  lemma {:induction false} PlacedAtRoot(ids: set<int>, accounts: seq<Account>, id: int)
    requires UniqueIds(accounts)
    ensures Count(Roots(ids, accounts), id) == if id in IdSet(accounts) && id !in LinksOf(ids, accounts) then 1 else 0
  {
    if accounts != [] {
      var init, a := accounts[..|accounts| - 1], accounts[|accounts| - 1];
      LastIsNew(accounts);
      PlacedAtRoot(ids, init, id);
      LinkKeys(ids, init);
      CountConcat(Roots(ids, init), if HasParent(ids, a) then [] else [a.id], id);
    }
  }

  /** Every account is placed exactly once: among the roots, or under its own parent. */
  lemma PlacedOnce(ids: set<int>, accounts: seq<Account>, p: int, id: int)
    requires UniqueIds(accounts)
    ensures var par := LinksOf(ids, accounts);
            && Count(Children(ids, accounts, p), id) == (if id in par && par[id] == p then 1 else 0)
            && Count(Roots(ids, accounts), id) == (if id in IdSet(accounts) && id !in par then 1 else 0)
  {
    PlacedUnder(ids, accounts, p, id);
    PlacedAtRoot(ids, accounts, id);
  }

  /** The tables that the builder works on: the account ids and their parent links. */
  ghost predicate Built(ids: set<int>, accounts: seq<Account>, par: Links) {
    UniqueIds(accounts) && ids == IdSet(accounts) && par == LinksOf(ids, accounts)
  }

  /** The account with this id hangs under p. */
  ghost predicate ParentIs(accounts: seq<Account>, id: int, p: int) {
    exists a :: a in accounts && a.id == id && Hangs(accounts, a, p)
  }

  predicate Link(par: Links, id: int, p: int) {
    id in par && par[id] == p
  }

  ghost predicate LinksAre(accounts: seq<Account>, par: Links) {
    forall id, p :: Link(par, id, p) <==> ParentIs(accounts, id, p)
  }

  /** The same on the fields: ids are the accounts' own, and links their parents as far as those are accounts. */
  ghost predicate TreeOf(ids: set<int>, accounts: seq<Account>, par: Links) {
    && UniqueIds(accounts) && (forall id :: id in ids <==> exists a :: a in accounts && a.id == id)
    && LinksAre(accounts, par)
  }

  lemma {:induction false} LinkOfAccount(ids: set<int>, accounts: seq<Account>, a: Account)
    requires UniqueIds(accounts) && a in accounts
    ensures a.id in LinksOf(ids, accounts) <==> HasParent(ids, a)
    ensures HasParent(ids, a) ==> LinksOf(ids, accounts)[a.id] == a.parent.value
  {
    var init, last := accounts[..|accounts| - 1], accounts[|accounts| - 1];
    LastIsNew(accounts);
    if a in init {
      LinkOfAccount(ids, init, a);
      assert a.id in IdSet(init);
    } else {
      LinkKeys(ids, init);
    }
  }

  lemma LinksMean(accounts: seq<Account>, id: int, p: int)
    requires UniqueIds(accounts)
    ensures var par := LinksOf(IdSet(accounts), accounts);
            Link(par, id, p) <==> ParentIs(accounts, id, p)
  {
    var ids := IdSet(accounts);
    LinkKeys(ids, accounts);
    if id in ids {
      var a :| a in accounts && a.id == id;
      LinkOfAccount(ids, accounts, a);
      HasParentIff(accounts, a, p);
      if ParentIs(accounts, id, p) {
        var b :| b in accounts && b.id == id && Hangs(accounts, b, p);
        LinkOfAccount(ids, accounts, b);
        HasParentIff(accounts, b, p);
      }
    }
  }

  /** Both describe one tree. */
  lemma TreeIsBuilt(ids: set<int>, accounts: seq<Account>, par: Links)
    ensures TreeOf(ids, accounts, par) <==> Built(ids, accounts, par)
  {
    if UniqueIds(accounts) {
      var links := LinksOf(IdSet(accounts), accounts);
      forall id, p
        ensures Link(links, id, p) <==> ParentIs(accounts, id, p)
      {
        LinksMean(accounts, id, p);
      }
      assert forall id :: id in IdSet(accounts) <==> exists a :: a in accounts && a.id == id;
      if TreeOf(ids, accounts, par) {
        assert forall id :: id in ids <==> id in IdSet(accounts);
        assert ids == IdSet(accounts);
        SameLinks(accounts, par, links);
      }
    }
  }

  lemma SameLinks(accounts: seq<Account>, par: Links, links: Links)
    requires LinksAre(accounts, par) && LinksAre(accounts, links)
    ensures par == links
  {
    forall id
      ensures id in par <==> id in links
      ensures id in par && id in links ==> par[id] == links[id]
    {
      if id in par {
        assert Link(par, id, par[id]);
      }
      if id in links {
        assert Link(links, id, links[id]);
      }
    }
  }

  // ---------------------------------------------------------------- chains as paths

  /** A walk from an account through parents. */
  ghost predicate Walk(accounts: seq<Account>, path: seq<int>) {
    forall i :: 0 <= i < |path| - 1 ==> ParentIs(accounts, path[i], path[i + 1])
  }

  /** Walking up from the account comes to some account twice. */
  ghost predicate WalksInCircle(accounts: seq<Account>, id: int, path: seq<int>) {
    && path != [] && path[0] == id && Walk(accounts, path)
    && exists i, j :: 0 <= i < j < |path| && path[i] == path[j]
  }

  lemma {:induction false} WalkIsChain(accounts: seq<Account>, par: Links, path: seq<int>, k: nat)
    requires LinksAre(accounts, par) && k < |path| && Walk(accounts, path)
    ensures Anc(par, path[0], k) == Some(path[k])
  {
    if k > 0 {
      WalkIsChain(accounts, par, path, k - 1);
      assert Link(par, path[k - 1], path[k]);
    }
  }

  lemma {:induction false} ChainIsWalk(accounts: seq<Account>, par: Links, id: int, n: nat) returns (path: seq<int>)
    requires LinksAre(accounts, par)
    requires Anc(par, id, n).Some?
    ensures |path| == n + 1 && path[0] == id && Walk(accounts, path)
    ensures forall k :: 0 <= k <= n ==> Anc(par, id, k) == Some(path[k])
  {
    if n == 0 {
      path := [id];
    } else {
      path := ChainIsWalk(accounts, par, id, n - 1);
      var x := Anc(par, id, n).value;
      assert Link(par, path[n - 1], x);
      path := path + [x];
    }
  }

  lemma CircleIff(accounts: seq<Account>, par: Links, id: int)
    requires LinksAre(accounts, par)
    ensures EntersCycle(par, id) <==> exists path :: WalksInCircle(accounts, id, path)
  {
    if EntersCycle(par, id) {
      var i: nat, j: nat :| Repeats(par, id, i, j);
      var path := ChainIsWalk(accounts, par, id, j);
      assert path[i] == path[j];
      assert WalksInCircle(accounts, id, path);
    }
    if path :| WalksInCircle(accounts, id, path) {
      var i: nat, j: nat :| i < j < |path| && path[i] == path[j];
      WalkIsChain(accounts, par, path, i);
      WalkIsChain(accounts, par, path, j);
      assert Repeats(par, id, i, j);
    }
  }

  // ---------------------------------------------------------------- what the roots reach

  function ChildrenOfAll(ids: set<int>, accounts: seq<Account>, ps: seq<int>): seq<int> {
    if ps == [] then []
    else ChildrenOfAll(ids, accounts, ps[..|ps| - 1]) + Children(ids, accounts, ps[|ps| - 1])
  }

  /** The nodes k links below the roots. */
  function Level(ids: set<int>, accounts: seq<Account>, k: nat): seq<int> {
    if k == 0 then Roots(ids, accounts) else ChildrenOfAll(ids, accounts, Level(ids, accounts, k - 1))
  }

  lemma {:induction false} CountOfChildren(ids: set<int>, accounts: seq<Account>, par: Links, ps: seq<int>, id: int)
    requires Built(ids, accounts, par)
    ensures Count(ChildrenOfAll(ids, accounts, ps), id) == if id in par then Count(ps, par[id]) else 0
  {
    if ps != [] {
      var init, p := ps[..|ps| - 1], ps[|ps| - 1];
      CountOfChildren(ids, accounts, par, init, id);
      PlacedOnce(ids, accounts, p, id);
      CountConcat(ChildrenOfAll(ids, accounts, init), Children(ids, accounts, p), id);
    }
  }

  lemma EndsOneFurther(par: Links, id: int, k: nat)
    requires k > 0
    ensures EndsAt(par, id, k) <==> id in par && EndsAt(par, par[id], k - 1)
  {
    AncFirst(par, id, k - 1);
  }

  lemma LinksStayInside(ids: set<int>, accounts: seq<Account>, par: Links, id: int)
    requires Built(ids, accounts, par)
    ensures id in par ==> id in ids && par[id] in ids
  {
    LinkKeys(ids, accounts);
  }

  /** The account is held once when its chain ends after k links, else not at all. */
  ghost predicate HeldWhenEnding(ids: set<int>, accounts: seq<Account>, par: Links, k: nat, id: int) {
    Count(Level(ids, accounts, k), id) == if id in ids && EndsAt(par, id, k) then 1 else 0
  }

  lemma RootsHold(ids: set<int>, accounts: seq<Account>, par: Links, id: int)
    requires Built(ids, accounts, par)
    ensures HeldWhenEnding(ids, accounts, par, 0, id)
  {
    PlacedAtRoot(ids, accounts, id);
  }

  /** One level further down, an account is held as often as its parent one level up. */
  lemma LevelStep(ids: set<int>, accounts: seq<Account>, par: Links, k: nat, id: int)
    requires Built(ids, accounts, par) && k > 0
    ensures Count(Level(ids, accounts, k), id) == if id in par then Count(Level(ids, accounts, k - 1), par[id]) else 0
  {
    CountOfChildren(ids, accounts, par, Level(ids, accounts, k - 1), id);
  }

  /** Both an account's place in the levels and its chain are its parent's, one further. */
  lemma OneLevelFurther(ids: set<int>, accounts: seq<Account>, par: Links, k: nat, id: int)
    requires Built(ids, accounts, par) && k > 0
    ensures id !in par ==> Count(Level(ids, accounts, k), id) == 0 && !EndsAt(par, id, k)
    ensures id in par ==> Count(Level(ids, accounts, k), id) == Count(Level(ids, accounts, k - 1), par[id])
    ensures id in par ==> (EndsAt(par, id, k) <==> EndsAt(par, par[id], k - 1))
  {
    LevelStep(ids, accounts, par, k, id);
    EndsOneFurther(par, id, k);
  }

  /** A parent that its level holds rightly passes that on. */
  lemma HoldsLikeParent(ids: set<int>, accounts: seq<Account>, par: Links, k: nat, id: int)
    requires Built(ids, accounts, par) && k > 0
    requires id in par ==> HeldWhenEnding(ids, accounts, par, k - 1, par[id])
    ensures HeldWhenEnding(ids, accounts, par, k, id)
  {
    OneLevelFurther(ids, accounts, par, k, id);
    LinksStayInside(ids, accounts, par, id);
  }

  /** A level holds an account once when its chain ends after that many links, else not at all. */
  lemma {:induction false} LevelHolds(ids: set<int>, accounts: seq<Account>, par: Links, k: nat, id: int)
    requires Built(ids, accounts, par)
    ensures HeldWhenEnding(ids, accounts, par, k, id)
  {
    if k == 0 {
      RootsHold(ids, accounts, par, id);
    } else {
      if id in par {
        LevelHolds(ids, accounts, par, k - 1, par[id]);
      }
      HoldsLikeParent(ids, accounts, par, k, id);
    }
  }

  lemma ReachedIff(ids: set<int>, accounts: seq<Account>, par: Links, id: int)
    requires Built(ids, accounts, par) && id in ids
    ensures (exists k: nat :: id in Level(ids, accounts, k)) <==> !EntersCycle(par, id)
  {
    EndsIffNoCycle(par, id);
    forall k: nat
      ensures id in Level(ids, accounts, k) <==> EndsAt(par, id, k)
    {
      LevelHolds(ids, accounts, par, k, id);
      CountIsMultiplicity(Level(ids, accounts, k), id);
    }
    if Ends(par, id) {
      var k: nat :| EndsAt(par, id, k);
      assert id in Level(ids, accounts, k);
    }
  }

  /**
   * An account is reachable from the roots exactly when its parent chain enters no cycle: no
   * walk from it through parents comes to an account twice.
   */
  lemma ReachableIffNoCycle(ids: set<int>, accounts: seq<Account>, par: Links, id: int)
    requires TreeOf(ids, accounts, par) && id in ids
    ensures (exists k: nat :: id in Level(ids, accounts, k)) <==> !EntersCycle(par, id)
    ensures (exists k: nat :: id in Level(ids, accounts, k)) <==> !exists path :: WalksInCircle(accounts, id, path)
  {
    TreeIsBuilt(ids, accounts, par);
    ReachedIff(ids, accounts, par, id);
    CircleIff(accounts, par, id);
  }

  function Flatten(ids: set<int>, accounts: seq<Account>, n: nat): seq<int> {
    if n == 0 then [] else Flatten(ids, accounts, n - 1) + Level(ids, accounts, n - 1)
  }

  /** An account held once, by level d only, is held once by every flattening past level d. */
  lemma {:induction false} FlattenCounts(ids: set<int>, accounts: seq<Account>, n: nat, id: int, d: int)
    requires forall k: nat :: Count(Level(ids, accounts, k), id) == if k == d then 1 else 0
    ensures Count(Flatten(ids, accounts, n), id) == if 0 <= d < n then 1 else 0
  {
    if n > 0 {
      FlattenCounts(ids, accounts, n - 1, id, d);
      CountConcat(Flatten(ids, accounts, n - 1), Level(ids, accounts, n - 1), id);
    }
  }

  lemma {:induction false} IdsHold(accounts: seq<Account>, id: int)
    requires UniqueIds(accounts)
    ensures Count(Ids(accounts), id) == if id in IdSet(accounts) then 1 else 0
  {
    if accounts != [] {
      LastIsNew(accounts);
      var init := accounts[..|accounts| - 1];
      IdsHold(init, id);
      CountConcat(Ids(init), [accounts[|accounts| - 1].id], id);
    }
  }

  lemma {:induction false} FewLinks(ids: set<int>, accounts: seq<Account>)
    ensures |LinksOf(ids, accounts).Keys| <= |accounts|
  {
    if accounts != [] {
      FewLinks(ids, accounts[..|accounts| - 1]);
      var a := accounts[|accounts| - 1];
      var par := LinksOf(ids, accounts[..|accounts| - 1]);
      SubsetSize(LinksOf(ids, accounts).Keys, par.Keys + {a.id});
    }
  }

  lemma FlattenHoldsEach(ids: set<int>, accounts: seq<Account>, par: Links, id: int)
    requires Built(ids, accounts, par)
    requires id in ids ==> !EntersCycle(par, id)
    ensures Count(Flatten(ids, accounts, |accounts| + 1), id) == Count(Ids(accounts), id)
  {
    FewLinks(ids, accounts);
    IdsHold(accounts, id);
    if id in ids {
      EndsWithin(par, id, |par.Keys|);
      var k: nat :| k <= |par.Keys| && EndsAt(par, id, k);
      forall j: nat
        ensures Count(Level(ids, accounts, j), id) == if j == k then 1 else 0
      {
        LevelHolds(ids, accounts, par, j, id);
        EndsExactly(par, id, k, j);
      }
      FlattenCounts(ids, accounts, |accounts| + 1, id, k);
    } else {
      forall j: nat
        ensures Count(Level(ids, accounts, j), id) == 0
      {
        LevelHolds(ids, accounts, par, j, id);
      }
      FlattenCounts(ids, accounts, |accounts| + 1, id, -1);
    }
  }

  /** With acyclic parents, flattening the tree level by level is a permutation of the accounts. */
  lemma FlattenIsPermutation(ids: set<int>, accounts: seq<Account>, par: Links)
    requires TreeOf(ids, accounts, par)
    requires forall id :: id in ids ==> !EntersCycle(par, id)
    ensures multiset(Flatten(ids, accounts, |accounts| + 1)) == multiset(Ids(accounts))
  {
    TreeIsBuilt(ids, accounts, par);
    var flat, all := Flatten(ids, accounts, |accounts| + 1), Ids(accounts);
    forall id
      ensures multiset(flat)[id] == multiset(all)[id]
    {
      FlattenHoldsEach(ids, accounts, par, id);
      CountIsMultiplicity(flat, id);
      CountIsMultiplicity(all, id);
    }
  }

  // ---------------------------------------------------------------- reparenting

  /** update_account refuses only an account as its own parent. */
  function Reparent(par: Links, id: int, p: int): Option<Links> {
    if p == id then None else Some(par[id := p])
  }

  ghost predicate Acyclic(par: Links) {
    forall x :: Ends(par, x)
  }

  ghost predicate Above(par: Links, id: int, x: int) {
    exists k: nat :: Anc(par, x, k) == Some(id)
  }

  lemma {:induction false} UntouchedChain(par: Links, id: int, p: int, x: int, k: nat)
    requires !Above(par, id, x)
    ensures Anc(par[id := p], x, k) == Anc(par, x, k)
  {
    if k > 0 {
      UntouchedChain(par, id, p, x, k - 1);
      assert Anc(par, x, k - 1) != Some(id);
    }
  }

  /** Below `id` the chain runs as before up to `id`. */
  lemma {:induction false} ChainUpTo(par: Links, id: int, p: int, x: int, k: nat)
    requires Anc(par, x, k) == Some(id) && forall j: nat :: j < k ==> Anc(par, x, j) != Some(id)
    ensures forall j: nat :: j <= k ==> Anc(par[id := p], x, j) == Anc(par, x, j)
  {
    forall j: nat | j <= k
      ensures Anc(par[id := p], x, j) == Anc(par, x, j)
    {
      SameUpTo(par, id, p, x, k, j);
    }
  }

  lemma {:induction false} SameUpTo(par: Links, id: int, p: int, x: int, k: nat, j: nat)
    requires j <= k && forall i: nat :: i < k ==> Anc(par, x, i) != Some(id)
    ensures Anc(par[id := p], x, j) == Anc(par, x, j)
  {
    if j > 0 {
      SameUpTo(par, id, p, x, k, j - 1);
    }
  }

  lemma {:induction false} FirstAbove(par: Links, id: int, x: int, k: nat) returns (m: nat)
    requires Anc(par, x, k) == Some(id)
    ensures Anc(par, x, m) == Some(id) && forall j: nat :: j < m ==> Anc(par, x, j) != Some(id)
  {
    if j: nat :| j < k && Anc(par, x, j) == Some(id) {
      m := FirstAbove(par, id, x, j);
    } else {
      m := k;
    }
  }

  lemma EndsThrough(par: Links, x: int, m: nat, y: int)
    requires Anc(par, x, m) == Some(y) && Ends(par, y)
    ensures Ends(par, x)
  {
    var k: nat :| EndsAt(par, y, k);
    AncSplit(par, x, m, k);
    assert EndsAt(par, x, m + k);
  }

  /** A new parent keeps the accounts acyclic exactly when it does not hang below the account. */
  lemma ReparentKeepsAcyclicIff(par: Links, id: int, p: int)
    requires Acyclic(par)
    ensures Reparent(par, id, p).None? <==> p == id
    ensures p != id ==> Reparent(par, id, p).value == par[id := p]
    ensures p != id ==> (Acyclic(par[id := p]) <==> !Above(par, id, p))
  {
    var par' := par[id := p];
    if Above(par, id, p) {
      var k: nat :| Anc(par, p, k) == Some(id);
      var m := FirstAbove(par, id, p, k);
      ChainUpTo(par, id, p, p, m);
      AncSplit(par', p, m, 1);
      assert Anc(par', id, 1) == Some(p) by { AncFirst(par', id, 0); }
      assert Repeats(par', p, 0, m + 1);
      assert EntersCycle(par', p);
      EndsIffNoCycle(par', p);
    } else {
      assert Ends(par', p) by {
        assert Ends(par, p);
        var k: nat :| EndsAt(par, p, k);
        UntouchedChain(par, id, p, p, k);
        assert Anc(par, p, k) != Some(id);
        assert EndsAt(par', p, k);
      }
      assert Ends(par', id) by {
        AncFirst(par', id, 0);
        EndsThrough(par', id, 1, p);
      }
      forall x
        ensures Ends(par', x)
      {
        if Above(par, id, x) {
          var k: nat :| Anc(par, x, k) == Some(id);
          var m := FirstAbove(par, id, x, k);
          ChainUpTo(par, id, p, x, m);
          EndsThrough(par', x, m, id);
        } else {
          assert Ends(par, x);
          var k: nat :| EndsAt(par, x, k);
          UntouchedChain(par, id, p, x, k);
          assert Anc(par, x, k) != Some(id);
          assert EndsAt(par', x, k);
        }
      }
    }
  }
}
