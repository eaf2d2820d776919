/** What the membership calls of app/api/chat.py do, told on the member rows themselves. */
module ChatRows {
  import opened Prelude
  import opened Chat

  // ---------------------------------------------------------------- rows and counts

  ghost predicate RowOf(m: Member, chat: int, user: int) {
    m.chat == chat && m.user == user
  }

  ghost predicate HasRow(members: seq<Member>, chat: int, user: int) {
    exists m :: m in members && RowOf(m, chat, user)
  }

  ghost predicate HasAdminRow(members: seq<Member>, chat: int, user: int) {
    exists m :: m in members && RowOf(m, chat, user) && m.role == Admin
  }

  ghost predicate AGroup(s: Chats, chat: int) {
    chat in s.sessions && s.sessions[chat].kind == GroupChat
  }

  ghost function RowsAt(members: seq<Member>, chat: int): set<int> {
    set i | 0 <= i < |members| && members[i].chat == chat
  }

  ghost function UserRowsAt(members: seq<Member>, chat: int, user: int): set<int> {
    set i | 0 <= i < |members| && members[i].chat == chat && members[i].user == user
  }

  ghost function AdminRowsAt(members: seq<Member>, chat: int): set<int> {
    set i | 0 <= i < |members| && members[i].chat == chat && members[i].role == Admin
  }

  lemma OneMoreRow(init: seq<Member>, m: Member, chat: int, user: int)
    ensures RowsAt(init + [m], chat) == RowsAt(init, chat) + (if m.chat == chat then {|init|} else {})
    ensures UserRowsAt(init + [m], chat, user)
         == UserRowsAt(init, chat, user) + (if m.chat == chat && m.user == user then {|init|} else {})
    ensures AdminRowsAt(init + [m], chat)
         == AdminRowsAt(init, chat) + (if m.chat == chat && m.role == Admin then {|init|} else {})
  {
  }

  /** The counts are numbers of rows. */
  lemma {:induction false} CountsAreRows(members: seq<Member>, chat: int, user: int)
    ensures CountRows(members, chat) == |RowsAt(members, chat)|
    ensures CountUser(members, chat, user) == |UserRowsAt(members, chat, user)|
    ensures CountAdmins(members, chat) == |AdminRowsAt(members, chat)|
  {
    if members == [] {
      assert RowsAt(members, chat) == UserRowsAt(members, chat, user) == AdminRowsAt(members, chat) == {};
    } else {
      var init, m := members[..|members| - 1], members[|members| - 1];
      assert members == init + [m];
      CountsAreRows(init, chat, user);
      CountsAppend(init, m, chat, user);
      OneMoreRow(init, m, chat, user);
    }
  }

  lemma MemberIff(members: seq<Member>, chat: int, user: int)
    ensures IsMember(members, chat, user) <==> HasRow(members, chat, user)
    ensures IsAdmin(members, chat, user) <==> HasAdminRow(members, chat, user)
  {
    if m :| m in members && RowOf(m, chat, user) {
      var i :| 0 <= i < |members| && members[i] == m;
      assert Is(members[i], chat, user);
    }
    if m :| m in members && RowOf(m, chat, user) && m.role == Admin {
      var i :| 0 <= i < |members| && members[i] == m;
      assert Is(members[i], chat, user);
    }
    if i :| 0 <= i < |members| && Is(members[i], chat, user) {
      assert RowOf(members[i], chat, user);
    }
    if i :| 0 <= i < |members| && Is(members[i], chat, user) && members[i].role.Admin? {
      assert RowOf(members[i], chat, user);
    }
  }

  ghost predicate FirstOtherAt(members: seq<Member>, chat: int, user: int, i: int) {
    && 0 <= i < |members| && members[i].chat == chat && members[i].user != user
    && forall j :: 0 <= j < i ==> !(members[j].chat == chat && members[j].user != user)
  }

  ghost predicate NoOther(members: seq<Member>, chat: int, user: int) {
    forall j :: 0 <= j < |members| ==> !(members[j].chat == chat && members[j].user != user)
  }

  lemma {:induction false} FirstOtherIsFirst(members: seq<Member>, chat: int, user: int)
    ensures var f := FirstOther(members, chat, user);
            if f.Some? then FirstOtherAt(members, chat, user, f.value) else NoOther(members, chat, user)
  {
    if members != [] {
      FirstOtherIsFirst(members[..|members| - 1], chat, user);
      assert forall j :: 0 <= j < |members| - 1 ==> members[..|members| - 1][j] == members[j];
    }
  }

  /** After every run: a group has exactly one admin row, nobody two rows in a chat, a private chat two rows. */
  lemma MembershipOnRows(es: seq<Event>, c: int, u: int)
    ensures var s := Run(EMPTY, es);
      && (AGroup(s, c) ==> |AdminRowsAt(s.members, c)| == 1)
      && |UserRowsAt(s.members, c, u)| <= 1
      && (c in s.sessions && s.sessions[c].kind == Private ==> |RowsAt(s.members, c)| == 2)
  {
    var s := Run(EMPTY, es);
    MembershipInvariant(es);
    CountsAreRows(s.members, c, u);
    if c in s.sessions && s.sessions[c].kind == Private {
      assert IsPrivate(s, c);
    }
  }

  // ---------------------------------------------------------------- what row updates do

  ghost predicate Rising(js: seq<int>) {
    forall i, j :: 0 <= i < j < |js| ==> js[i] < js[j]
  }

  /** `rows'` are the rows at the positions js, in order. */
  ghost predicate RowsOf(rows: seq<Member>, rows': seq<Member>, js: seq<int>) {
    |js| == |rows'| && Rising(js) && forall k :: 0 <= k < |js| ==> 0 <= js[k] < |rows| && rows'[k] == rows[js[k]]
  }

  ghost predicate Goes(m: Member, chat: int, users: set<int>, keepAdmins: bool) {
    m.chat == chat && m.user in users && !(keepAdmins && m.role == Admin)
  }

  /** The users' rows of the chat are gone, admins perhaps kept; all others stay, in order. */
  ghost predicate Removes(rows: seq<Member>, rows': seq<Member>, chat: int, users: set<int>, keepAdmins: bool) {
    exists js :: RowsOf(rows, rows', js)
                 && forall j :: j in js <==> 0 <= j < |rows| && !Goes(rows[j], chat, users, keepAdmins)
  }

  lemma RowsAppend(init: seq<Member>, m: Member, rows': seq<Member>, js: seq<int>)
    requires RowsOf(init, rows', js)
    ensures RowsOf(init + [m], rows', js) && RowsOf(init + [m], rows' + [m], js + [|init|])
  {
  }

  lemma {:induction false} WithoutRemoves(rows: seq<Member>, chat: int, users: set<int>, keep: bool)
    returns (js: seq<int>)
    ensures RowsOf(rows, Without(rows, chat, users, keep), js)
    ensures forall j :: j in js <==> 0 <= j < |rows| && !Goes(rows[j], chat, users, keep)
  {
    js := [];
    if rows != [] {
      var init, m := rows[..|rows| - 1], rows[|rows| - 1];
      assert rows == init + [m];
      js := WithoutRemoves(init, chat, users, keep);
      RowsAppend(init, m, Without(init, chat, users, keep), js);
      if Drops(m, chat, users, keep) {
        assert Without(init, chat, users, keep) + [] == Without(init, chat, users, keep);
      } else {
        js := js + [|init|];
      }
    }
  }

  /** The user's rows of the chat get the role; nothing else of any row changes. */
  ghost predicate Reroles(rows: seq<Member>, rows': seq<Member>, chat: int, user: int, role: Role) {
    |rows'| == |rows| && forall i :: 0 <= i < |rows| ==>
      && rows'[i].chat == rows[i].chat && rows'[i].user == rows[i].user
      && rows'[i].role == if RowOf(rows[i], chat, user) then role else rows[i].role
  }

  lemma {:induction false} SetRoleReroles(rows: seq<Member>, chat: int, user: int, role: Role)
    ensures Reroles(rows, SetRole(rows, chat, user, role), chat, user, role)
  {
    if rows != [] {
      SetRoleReroles(rows[..|rows| - 1], chat, user, role);
    }
  }

  ghost predicate NewAt(rows: seq<Member>, chat: int, users: seq<int>, p: int) {
    0 <= p < |users| && !HasRow(rows, chat, users[p]) && forall q :: 0 <= q < p ==> users[q] != users[p]
  }

  /** Behind the old rows one for each user that had none, in the order given; only `admin` becomes one. */
  ghost predicate Inserts(rows: seq<Member>, rows': seq<Member>, chat: int, users: seq<int>, admin: Option<int>,
                          ps: seq<int>)
  {
    && |rows'| == |rows| + |ps| && rows'[..|rows|] == rows && Rising(ps)
    && (forall p :: p in ps <==> NewAt(rows, chat, users, p))
    && forall k :: 0 <= k < |ps| && 0 <= ps[k] < |users| ==>
         rows'[|rows| + k] == Member(chat, users[ps[k]], if admin == Some(users[ps[k]]) then Admin else Plain)
  }

  lemma OneMoreNew(rows: seq<Member>, chat: int, users: seq<int>, u: int, p: int)
    ensures NewAt(rows, chat, users + [u], p) <==>
              NewAt(rows, chat, users, p)
              || (p == |users| && !HasRow(rows, chat, u) && forall q :: 0 <= q < |users| ==> users[q] != u)
  {
    assert forall q :: 0 <= q < |users| ==> (users + [u])[q] == users[q];
  }

  lemma InsertsOneMore(rows: seq<Member>, rows': seq<Member>, chat: int, users: seq<int>, admin: Option<int>,
                       ps: seq<int>, u: int)
    returns (qs: seq<int>)
    requires Inserts(rows, rows', chat, users, admin, ps)
    ensures var next := if HasRow(rows', chat, u) then rows'
                        else rows' + [Member(chat, u, if admin == Some(u) then Admin else Plain)];
            Inserts(rows, next, chat, users + [u], admin, qs)
  {
    HasRowAfter(rows, rows', chat, users, admin, ps, u);
    qs := if HasRow(rows', chat, u) then ps else ps + [|users|];
    forall k | 0 <= k < |ps|
      ensures 0 <= ps[k] < |users|
    {
      assert ps[k] in ps;
    }
    forall p
      ensures p in qs <==> NewAt(rows, chat, users + [u], p)
    {
      OneMoreNew(rows, chat, users, u, p);
    }
  }

  /** After the users were inserted exactly they and the old members have rows. */
  lemma HasRowAfter(rows: seq<Member>, rows': seq<Member>, chat: int, users: seq<int>, admin: Option<int>,
                    ps: seq<int>, u: int)
    requires Inserts(rows, rows', chat, users, admin, ps)
    ensures HasRow(rows', chat, u) <==> HasRow(rows, chat, u) || exists q :: 0 <= q < |users| && users[q] == u
  {
    if m :| m in rows && RowOf(m, chat, u) {
      var i :| 0 <= i < |rows| && rows[i] == m;
      assert rows'[..|rows|][i] == rows'[i];
    } else if q :| 0 <= q < |users| && users[q] == u {
      var p := FirstOccurrence(users, u, q);
      assert NewAt(rows, chat, users, p);
      var k :| 0 <= k < |ps| && ps[k] == p;
      assert RowOf(rows'[|rows| + k], chat, u);
    }
    if m :| m in rows' && RowOf(m, chat, u) {
      var i :| 0 <= i < |rows'| && rows'[i] == m;
      if i < |rows| {
        assert rows'[..|rows|][i] == rows[i];
      } else {
        assert ps[i - |rows|] in ps;
      }
    }
  }

  lemma {:induction false} FirstOccurrence(users: seq<int>, u: int, q: nat) returns (p: nat)
    requires q < |users| && users[q] == u
    ensures p <= q && users[p] == u && forall j :: 0 <= j < p ==> users[j] != u
  {
    if j: nat :| j < q && users[j] == u {
      p := FirstOccurrence(users, u, j);
    } else {
      p := q;
    }
  }

  lemma {:induction false} AddAllInserts(rows: seq<Member>, rows': seq<Member>, chat: int, done: seq<int>,
                                         users: seq<int>, admin: Option<int>, ps: seq<int>)
    returns (qs: seq<int>)
    requires Inserts(rows, rows', chat, done, admin, ps)
    ensures Inserts(rows, AddAll(rows', chat, users, admin), chat, done + users, admin, qs)
    decreases users
  {
    if users == [] {
      assert done + users == done;
      qs := ps;
    } else {
      var u := users[0];
      var next := InsertsOneMore(rows, rows', chat, done, admin, ps, u);
      MemberIff(rows', chat, u);
      var rows'' := if IsMember(rows', chat, u) then rows'
                    else rows' + [Member(chat, u, if admin == Some(u) then Admin else Plain)];
      qs := AddAllInserts(rows, rows'', chat, done + [u], users[1..], admin, next);
      assert done + [u] + users[1..] == done + users;
    }
  }

  ghost predicate InsertsAll(rows: seq<Member>, rows': seq<Member>, chat: int, users: seq<int>, admin: Option<int>) {
    exists ps :: Inserts(rows, rows', chat, users, admin, ps)
  }

  lemma AddAllHolds(rows: seq<Member>, chat: int, users: seq<int>, admin: Option<int>)
    ensures InsertsAll(rows, AddAll(rows, chat, users, admin), chat, users, admin)
  {
    var qs := AddAllInserts(rows, rows, chat, [], users, admin, []);
    assert [] + users == users;
  }

  // ---------------------------------------------------------------- the calls

  /** Nothing but the member rows changed. */
  ghost predicate OnlyRows(s: Chats, s': Chats) {
    s'.sessions == s.sessions && s'.nextId == s.nextId
  }

  ghost predicate MayManage(s: Chats, user: int, chat: int) {
    AGroup(s, chat) && HasAdminRow(s.members, chat, user)
  }

  /** A new group of the creator, as admin, and the others, each once. */
  lemma CreateGroupHolds(s: Chats, user: int, users: seq<int>)
    ensures var s' := Step(s, DoCreateGroup(user, users));
            && s'.nextId == s.nextId + 1 && s'.sessions == s.sessions[s.nextId := Session(GroupChat, user)]
            && InsertsAll(s.members, s'.members, s.nextId, if user in users then users else users + [user], Some(user))
  {
    AddAllHolds(s.members, s.nextId, if user in users then users else users + [user], Some(user));
  }

  lemma AddHolds(s: Chats, user: int, chat: int, users: seq<int>)
    ensures Call(s, DoAdd(user, chat, users)).Some? <==> MayManage(s, user, chat) && users != []
    ensures var s' := Step(s, DoAdd(user, chat, users));
            if MayManage(s, user, chat) && users != []
            then OnlyRows(s, s') && InsertsAll(s.members, s'.members, chat, users, None) else s' == s
  {
    MemberIff(s.members, chat, user);
    AddAllHolds(s.members, chat, users, None);
  }

  lemma BulkRemoveHolds(s: Chats, user: int, chat: int, targets: set<int>)
    ensures Call(s, DoBulkRemove(user, chat, targets)).Some? <==> MayManage(s, user, chat)
    ensures var s' := Step(s, DoBulkRemove(user, chat, targets));
            if MayManage(s, user, chat)
            then OnlyRows(s, s') && Removes(s.members, s'.members, chat, targets, true) else s' == s
  {
    MemberIff(s.members, chat, user);
    var js := WithoutRemoves(s.members, chat, targets, true);
  }

  /** The target is somebody else than the creator, a member, and not the only admin; kicking oneself is allowed. */
  ghost predicate MayRemove(s: Chats, user: int, chat: int, target: int, kick: bool) {
    && MayManage(s, user, chat) && target != s.sessions[chat].createdBy && (kick || target != user)
    && HasRow(s.members, chat, target)
    && !(HasAdminRow(s.members, chat, target) && |AdminRowsAt(s.members, chat)| == 1)
  }

  lemma RemoveHolds(s: Chats, user: int, chat: int, target: int, kick: bool)
    ensures var e := if kick then DoKick(user, chat, target) else DoRemove(user, chat, target);
            && (Call(s, e).Some? <==> MayRemove(s, user, chat, target, kick))
            && if MayRemove(s, user, chat, target, kick)
               then OnlyRows(s, Step(s, e)) && Removes(s.members, Step(s, e).members, chat, {target}, false)
               else Step(s, e) == s
  {
    MemberIff(s.members, chat, user);
    MemberIff(s.members, chat, target);
    CountsAreRows(s.members, chat, target);
    var js := WithoutRemoves(s.members, chat, {target}, false);
  }

  /** The only admin's leaving makes the first other member one; otherwise no role changes. */
  ghost predicate Promotes(rows: seq<Member>, mid: seq<Member>, chat: int, user: int) {
    if HasAdminRow(rows, chat, user) && |AdminRowsAt(rows, chat)| == 1 && !NoOther(rows, chat, user)
    then exists i :: FirstOtherAt(rows, chat, user, i) && Reroles(rows, mid, chat, rows[i].user, Admin)
    else mid == rows
  }

  /** Then the leaver's row goes, and the group with it when nobody else was there. */
  ghost predicate Leaves(s: Chats, s': Chats, user: int, chat: int) {
    && s'.nextId == s.nextId
    && s'.sessions == (if NoOther(s.members, chat, user) then s.sessions - {chat} else s.sessions)
    && exists mid :: PromotesAndRemoves(s.members, mid, s'.members, user, chat)
  }

  ghost predicate PromotesAndRemoves(rows: seq<Member>, mid: seq<Member>, rows': seq<Member>, user: int, chat: int) {
    Promotes(rows, mid, chat, user) && Removes(mid, rows', chat, {user}, false)
  }

  /** The rows with the heir promoted, if one is needed. */
  function Promoted(rows: seq<Member>, chat: int, user: int): seq<Member> {
    var other := FirstOther(rows, chat, user);
    if IsAdmin(rows, chat, user) && CountAdmins(rows, chat) == 1 && other.Some? && other.value < |rows|
    then SetRole(rows, chat, rows[other.value].user, Admin) else rows
  }

  lemma PromotedHolds(rows: seq<Member>, chat: int, user: int)
    ensures Promotes(rows, Promoted(rows, chat, user), chat, user)
  {
    MemberIff(rows, chat, user);
    CountsAreRows(rows, chat, user);
    FirstOtherIsFirst(rows, chat, user);
    var other := FirstOther(rows, chat, user);
    if other.Some? {
      SetRoleReroles(rows, chat, rows[other.value].user, Admin);
    }
  }

  lemma LeaveWrites(s: Chats, user: int, chat: int)
    requires Call(s, DoLeave(user, chat)).Some?
    ensures var s' := Step(s, DoLeave(user, chat));
            && s'.nextId == s.nextId && s'.members == Without(Promoted(s.members, chat, user), chat, {user}, false)
            && s'.sessions == if NoOther(s.members, chat, user) then s.sessions - {chat} else s.sessions
  {
    FirstOtherIsFirst(s.members, chat, user);
  }

  lemma LeftRows(rows: seq<Member>, user: int, chat: int)
    ensures PromotesAndRemoves(rows, Promoted(rows, chat, user),
                               Without(Promoted(rows, chat, user), chat, {user}, false), user, chat)
  {
    PromotedHolds(rows, chat, user);
    var js := WithoutRemoves(Promoted(rows, chat, user), chat, {user}, false);
  }

  lemma LeaveIff(s: Chats, user: int, chat: int)
    ensures Call(s, DoLeave(user, chat)).Some? <==> AGroup(s, chat) && HasRow(s.members, chat, user)
  {
    MemberIff(s.members, chat, user);
  }

  lemma LeaveHolds(s: Chats, user: int, chat: int)
    ensures if AGroup(s, chat) && HasRow(s.members, chat, user)
            then Leaves(s, Step(s, DoLeave(user, chat)), user, chat) else Step(s, DoLeave(user, chat)) == s
  {
    LeaveIff(s, user, chat);
    if Call(s, DoLeave(user, chat)).Some? {
      LeaveWrites(s, user, chat);
      LeftRows(s.members, user, chat);
    }
  }

  /** The caller's rows become plain, the target's admin, and nothing else of any row changes. */
  ghost predicate Transfers(rows: seq<Member>, rows': seq<Member>, chat: int, user: int, target: int) {
    |rows'| == |rows| && forall i :: 0 <= i < |rows| ==>
      && rows'[i].chat == rows[i].chat && rows'[i].user == rows[i].user
      && rows'[i].role == if rows[i].chat == chat && rows[i].user == target then Admin
                          else if rows[i].chat == chat && rows[i].user == user then Plain else rows[i].role
  }

  lemma RerolesTwice(rows: seq<Member>, mid: seq<Member>, rows': seq<Member>, chat: int, user: int, target: int)
    requires Reroles(rows, mid, chat, user, Plain) && Reroles(mid, rows', chat, target, Admin)
    ensures Transfers(rows, rows', chat, user, target)
  {
  }

  lemma TransferWrites(s: Chats, user: int, chat: int, target: int)
    requires Call(s, DoTransfer(user, chat, target)).Some? && target != user
    ensures var s' := Step(s, DoTransfer(user, chat, target));
            OnlyRows(s, s') && Transfers(s.members, s'.members, chat, user, target)
  {
    var mid := SetRole(s.members, chat, user, Plain);
    SetRoleReroles(s.members, chat, user, Plain);
    SetRoleReroles(mid, chat, target, Admin);
    RerolesTwice(s.members, mid, SetRole(mid, chat, target, Admin), chat, user, target);
  }

  lemma TransferHolds(s: Chats, user: int, chat: int, target: int)
    ensures Call(s, DoTransfer(user, chat, target)).Some? <==>
              MayManage(s, user, chat) && HasRow(s.members, chat, target)
    ensures var s' := Step(s, DoTransfer(user, chat, target));
            if MayManage(s, user, chat) && HasRow(s.members, chat, target) && target != user
            then OnlyRows(s, s') && Transfers(s.members, s'.members, chat, user, target)
                 && HasAdminRow(s'.members, chat, target) && !HasAdminRow(s'.members, chat, user)
            else s' == s
  {
    MemberIff(s.members, chat, user);
    MemberIff(s.members, chat, target);
    if Call(s, DoTransfer(user, chat, target)).Some? && target != user {
      TransferWrites(s, user, chat, target);
      TargetIsAdmin(s.members, Step(s, DoTransfer(user, chat, target)).members, chat, user, target);
    }
  }

  lemma TargetIsAdmin(rows: seq<Member>, rows': seq<Member>, chat: int, user: int, target: int)
    requires Transfers(rows, rows', chat, user, target) && HasRow(rows, chat, target) && target != user
    ensures HasAdminRow(rows', chat, target) && !HasAdminRow(rows', chat, user)
  {
    var m :| m in rows && RowOf(m, chat, target);
    var i :| 0 <= i < |rows| && rows[i] == m;
    assert RowOf(rows'[i], chat, target) && rows'[i] in rows';
    forall x | x in rows' && RowOf(x, chat, user)
      ensures x.role == Plain
    {
      var k :| 0 <= k < |rows'| && rows'[k] == x;
    }
  }

  /** A private chat that is exactly the two users', one row each. */
  ghost predicate IsPairOf(s: Chats, c: int, a: int, b: int) {
    && c in s.sessions && s.sessions[c].kind == Private
    && |RowsAt(s.members, c)| == 2 && |UserRowsAt(s.members, c, a)| == 1 && |UserRowsAt(s.members, c, b)| == 1
  }

  lemma PairExistsIff(s: Chats, a: int, b: int)
    ensures PairExists(s, a, b) <==> exists c :: IsPairOf(s, c, a, b)
  {
    forall c
      ensures c in s.sessions && IsPrivate(s, c) && Having(s.members, c, a, b) <==> IsPairOf(s, c, a, b)
    {
      CountsAreRows(s.members, c, a);
      CountsAreRows(s.members, c, b);
    }
  }

  /** An existing pair is left as it is; otherwise a private chat of the two is new. */
  lemma PrivateHolds(s: Chats, user: int, target: int)
    ensures Call(s, DoPrivate(user, target)).Some? <==> user != target
    ensures var s' := Step(s, DoPrivate(user, target));
            if user == target || exists c :: IsPairOf(s, c, user, target) then s' == s
            else s'.nextId == s.nextId + 1 && s'.sessions == s.sessions[s.nextId := Session(Private, user)]
                 && s'.members == s.members + [Member(s.nextId, user, Plain), Member(s.nextId, target, Plain)]
  {
    PairExistsIff(s, user, target);
  }
}
