/**
 * Chat membership of app/api/chat.py: groups with one admin, private chats of
 * two. Member rows are kept in table order; ids of chats are never reused.
 */
module Chat {
  import opened Prelude

  datatype Role = Admin | Plain

  datatype Member = Member(chat: int, user: int, role: Role)

  datatype Kind = Private | GroupChat

  datatype Session = Session(kind: Kind, createdBy: int)

  datatype Chats = Chats(sessions: map<int, Session>, nextId: int, members: seq<Member>)

  const EMPTY := Chats(map[], 1, [])

  // ---------------------------------------------------------------- queries

  predicate Is(m: Member, chat: int, user: int) {
    m.chat == chat && m.user == user
  }

  predicate IsMember(members: seq<Member>, chat: int, user: int) {
    exists i :: 0 <= i < |members| && Is(members[i], chat, user)
  }

  predicate IsAdmin(members: seq<Member>, chat: int, user: int) {
    exists i :: 0 <= i < |members| && Is(members[i], chat, user) && members[i].role.Admin?
  }

  function CountAdmins(members: seq<Member>, chat: int): nat {
    if members == [] then 0
    else
      var m := members[|members| - 1];
      CountAdmins(members[..|members| - 1], chat) + (if m.chat == chat && m.role.Admin? then 1 else 0)
  }

  function CountRows(members: seq<Member>, chat: int): nat {
    if members == [] then 0
    else CountRows(members[..|members| - 1], chat) + (if members[|members| - 1].chat == chat then 1 else 0)
  }

  /** The sum of `case (user_id == user, 1) else 0` over the chat's rows. */
  function CountUser(members: seq<Member>, chat: int, user: int): nat {
    if members == [] then 0
    else CountUser(members[..|members| - 1], chat, user) + (if Is(members[|members| - 1], chat, user) then 1 else 0)
  }

  function CountAdminRows(members: seq<Member>, chat: int, user: int): nat {
    if members == [] then 0
    else
      var m := members[|members| - 1];
      CountAdminRows(members[..|members| - 1], chat, user) + (if Is(m, chat, user) && m.role.Admin? then 1 else 0)
  }

  /** The first row of the chat that is not the user's. */
  function FirstOther(members: seq<Member>, chat: int, user: int): Option<nat> {
    if members == [] then None
    else
      var n := |members| - 1;
      var f := FirstOther(members[..n], chat, user);
      if f.Some? then f else if members[n].chat == chat && members[n].user != user then Some(n) else None
  }

  // ---------------------------------------------------------------- row updates

  predicate Drops(m: Member, chat: int, users: set<int>, keepAdmins: bool) {
    m.chat == chat && m.user in users && !(keepAdmins && m.role.Admin?)
  }

  function Without(members: seq<Member>, chat: int, users: set<int>, keepAdmins: bool): seq<Member> {
    if members == [] then []
    else
      var m := members[|members| - 1];
      Without(members[..|members| - 1], chat, users, keepAdmins)
      + (if Drops(m, chat, users, keepAdmins) then [] else [m])
  }

  function Ranked(m: Member, chat: int, user: int, role: Role): Member {
    if Is(m, chat, user) then m.(role := role) else m
  }

  function SetRole(members: seq<Member>, chat: int, user: int, role: Role): seq<Member> {
    if members == [] then []
    else SetRole(members[..|members| - 1], chat, user, role) + [Ranked(members[|members| - 1], chat, user, role)]
  }

  /** Insert the users that are not members yet, in the given order. */
  function AddAll(members: seq<Member>, chat: int, users: seq<int>, admin: Option<int>): seq<Member>
    decreases users
  {
    if users == [] then members
    else
      var u := users[0];
      AddAll(if IsMember(members, chat, u) then members
             else members + [Member(chat, u, if admin == Some(u) then Admin else Plain)], chat, users[1..], admin)
  }

  // ---------------------------------------------------------------- group operations

  predicate IsGroup(s: Chats, chat: int) {
    chat in s.sessions && s.sessions[chat].kind.GroupChat?
  }

  /** `users` are the distinct member ids in the order they are inserted; the creator is always among them. */
  function CreateGroup(s: Chats, user: int, users: seq<int>): Option<Chats> {
    var all := if user in users then users else users + [user];
    Some(Chats(s.sessions[s.nextId := Session(GroupChat, user)], s.nextId + 1,
               AddAll(s.members, s.nextId, all, Some(user))))
  }

  /** add_member with one id, add_multiple_members with many. */
  function AddMembers(s: Chats, user: int, chat: int, users: seq<int>): Option<Chats> {
    if !IsGroup(s, chat) || !IsAdmin(s.members, chat, user) || users == [] then None
    else Some(s.(members := AddAll(s.members, chat, users, None)))
  }

  /** remove_multiple_members skips admins. */
  function RemoveMembers(s: Chats, user: int, chat: int, users: set<int>): Option<Chats> {
    if !IsGroup(s, chat) || !IsAdmin(s.members, chat, user) then None
    else Some(s.(members := Without(s.members, chat, users, true)))
  }

  /** remove_member, and kick_member, which lacks the check against oneself. */
  function RemoveMember(s: Chats, user: int, chat: int, target: int, kick: bool): Option<Chats> {
    if !IsGroup(s, chat) || target == s.sessions[chat].createdBy || !IsAdmin(s.members, chat, user)
       || (!kick && target == user) || !IsMember(s.members, chat, target)
       || (IsAdmin(s.members, chat, target) && CountAdmins(s.members, chat) == 1) then None
    else Some(s.(members := Without(s.members, chat, {target}, false)))
  }

  /** The last admin promotes the first other member; the last member takes the group along. */
  function Leave(s: Chats, user: int, chat: int): Option<Chats> {
    if !IsGroup(s, chat) || !IsMember(s.members, chat, user) then None
    else
      var other := FirstOther(s.members, chat, user);
      var promoted :=
        if IsAdmin(s.members, chat, user) && CountAdmins(s.members, chat) == 1
           && other.Some? && other.value < |s.members|
        then SetRole(s.members, chat, s.members[other.value].user, Admin) else s.members;
      var members := Without(promoted, chat, {user}, false);
      Some(s.(members := members, sessions := if other.None? then s.sessions - {chat} else s.sessions))
  }

  function TransferAdmin(s: Chats, user: int, chat: int, target: int): Option<Chats> {
    if !IsGroup(s, chat) || !IsAdmin(s.members, chat, user) || !IsMember(s.members, chat, target) then None
    else if target == user then Some(s)
    else Some(s.(members := SetRole(SetRole(s.members, chat, user, Plain), chat, target, Admin)))
  }

  // ---------------------------------------------------------------- private chats

  /** The HAVING clause: two members, one of them each of the two users. */
  predicate Having(members: seq<Member>, chat: int, a: int, b: int) {
    CountRows(members, chat) == 2 && CountUser(members, chat, a) == 1 && CountUser(members, chat, b) == 1
  }

  predicate IsPrivate(s: Chats, chat: int) {
    chat in s.sessions && s.sessions[chat].kind.Private?
  }

  predicate PairExists(s: Chats, a: int, b: int) {
    exists c :: c in s.sessions && IsPrivate(s, c) && Having(s.members, c, a, b)
  }

  function CreatePrivate(s: Chats, user: int, target: int): Option<Chats> {
    if user == target then None
    else if PairExists(s, user, target) then Some(s)
    else Some(Chats(s.sessions[s.nextId := Session(Private, user)], s.nextId + 1,
                    s.members + [Member(s.nextId, user, Plain)] + [Member(s.nextId, target, Plain)]))
  }

  // ---------------------------------------------------------------- the machine

  datatype Event =
    | DoCreateGroup(user: int, users: seq<int>)
    | DoAdd(user: int, chat: int, users: seq<int>)
    | DoBulkRemove(user: int, chat: int, targets: set<int>)
    | DoRemove(user: int, chat: int, target: int)
    | DoKick(user: int, chat: int, target: int)
    | DoLeave(user: int, chat: int)
    | DoTransfer(user: int, chat: int, target: int)
    | DoPrivate(user: int, target: int)

  function Call(s: Chats, e: Event): Option<Chats> {
    match e
    case DoCreateGroup(u, us) => CreateGroup(s, u, us)
    case DoAdd(u, c, us) => AddMembers(s, u, c, us)
    case DoBulkRemove(u, c, ts) => RemoveMembers(s, u, c, ts)
    case DoRemove(u, c, t) => RemoveMember(s, u, c, t, false)
    case DoKick(u, c, t) => RemoveMember(s, u, c, t, true)
    case DoLeave(u, c) => Leave(s, u, c)
    case DoTransfer(u, c, t) => TransferAdmin(s, u, c, t)
    case DoPrivate(u, t) => CreatePrivate(s, u, t)
  }

  function Step(s: Chats, e: Event): Chats {
    var c := Call(s, e);
    if c.Some? then c.value else s
  }

  function Run(s: Chats, es: seq<Event>): Chats
    decreases es
  {
    if es == [] then s else Run(Step(s, es[0]), es[1..])
  }

  // ---------------------------------------------------------------- counting rows

  lemma {:induction false} CountsAppend(members: seq<Member>, m: Member, c: int, u: int)
    ensures var more := members + [m];
            && CountRows(more, c) == CountRows(members, c) + (if m.chat == c then 1 else 0)
            && CountUser(more, c, u) == CountUser(members, c, u) + (if Is(m, c, u) then 1 else 0)
            && CountAdmins(more, c) == CountAdmins(members, c) + (if m.chat == c && m.role.Admin? then 1 else 0)
            && CountAdminRows(more, c, u) == CountAdminRows(members, c, u)
                                             + (if Is(m, c, u) && m.role.Admin? then 1 else 0)
  {
  }

  /** Counts and queries agree. */
  lemma {:induction false} CountsDecide(members: seq<Member>, c: int, u: int)
    ensures IsMember(members, c, u) <==> CountUser(members, c, u) > 0
    ensures IsAdmin(members, c, u) <==> CountAdminRows(members, c, u) > 0
    ensures CountAdminRows(members, c, u) <= CountUser(members, c, u)
    ensures CountAdminRows(members, c, u) <= CountAdmins(members, c)
    ensures CountUser(members, c, u) <= CountRows(members, c)
    ensures FirstOther(members, c, u).None? <==> CountRows(members, c) == CountUser(members, c, u)
    ensures FirstOther(members, c, u).None? ==> CountAdmins(members, c) == CountAdminRows(members, c, u)
    ensures var f := FirstOther(members, c, u);
            f.Some? ==> f.value < |members| && members[f.value].chat == c && members[f.value].user != u
  {
    if members != [] {
      var n := |members| - 1;
      CountsDecide(members[..n], c, u);
      assert members == members[..n] + [members[n]];
    }
  }

  /** Two users share no row. */
  lemma {:induction false} TwoUsers(members: seq<Member>, c: int, u: int, v: int)
    requires u != v
    ensures CountUser(members, c, u) + CountUser(members, c, v) <= CountRows(members, c)
    ensures CountAdminRows(members, c, u) + CountAdminRows(members, c, v) <= CountAdmins(members, c)
  {
    if members != [] {
      TwoUsers(members[..|members| - 1], c, u, v);
    }
  }

  lemma {:induction false} ThreeUsers(members: seq<Member>, c: int, u: int, v: int, w: int)
    requires u != v && v != w && u != w
    ensures CountUser(members, c, u) + CountUser(members, c, v) + CountUser(members, c, w) <= CountRows(members, c)
  {
    if members != [] {
      ThreeUsers(members[..|members| - 1], c, u, v, w);
    }
  }

  lemma {:induction false} WithoutOther(members: seq<Member>, chat: int, users: set<int>, keep: bool, c: int, u: int)
    requires c != chat
    ensures var less := Without(members, chat, users, keep);
            && CountRows(less, c) == CountRows(members, c) && CountUser(less, c, u) == CountUser(members, c, u)
            && CountAdmins(less, c) == CountAdmins(members, c)
  {
    if members != [] {
      var n := |members| - 1;
      WithoutOther(members[..n], chat, users, keep, c, u);
      var less := Without(members[..n], chat, users, keep);
      if Drops(members[n], chat, users, keep) {
        assert less + [] == less;
      } else {
        CountsAppend(less, members[n], c, u);
      }
    }
  }

  /** Bulk removal keeps the admins and adds nobody. */
  lemma {:induction false} WithoutPlain(members: seq<Member>, chat: int, users: set<int>, u: int)
    ensures var less := Without(members, chat, users, true);
            && CountAdmins(less, chat) == CountAdmins(members, chat)
            && CountUser(less, chat, u) <= CountUser(members, chat, u)
  {
    if members != [] {
      var n := |members| - 1;
      WithoutPlain(members[..n], chat, users, u);
      var less := Without(members[..n], chat, users, true);
      if Drops(members[n], chat, users, true) {
        assert less + [] == less;
      } else {
        CountsAppend(less, members[n], chat, u);
      }
    }
  }

  lemma {:induction false} WithoutOne(members: seq<Member>, chat: int, target: int, u: int)
    ensures var less := Without(members, chat, {target}, false);
            && CountAdmins(less, chat) == CountAdmins(members, chat) - CountAdminRows(members, chat, target)
            && CountRows(less, chat) == CountRows(members, chat) - CountUser(members, chat, target)
            && CountUser(less, chat, u) == (if u == target then 0 else CountUser(members, chat, u))
  {
    if members != [] {
      var n := |members| - 1;
      WithoutOne(members[..n], chat, target, u);
      var less := Without(members[..n], chat, {target}, false);
      if Drops(members[n], chat, {target}, false) {
        assert less + [] == less;
      } else {
        CountsAppend(less, members[n], chat, u);
      }
    }
  }

  lemma RankedCounts(rest: seq<Member>, m: Member, chat: int, target: int, role: Role, c: int, u: int)
    ensures var more, x := rest + [Ranked(m, chat, target, role)], Ranked(m, chat, target, role);
            && CountRows(more, c) == CountRows(rest, c) + (if m.chat == c then 1 else 0)
            && CountUser(more, c, u) == CountUser(rest, c, u) + (if Is(m, c, u) then 1 else 0)
            && CountAdmins(more, c) == CountAdmins(rest, c) + (if m.chat == c && x.role.Admin? then 1 else 0)
            && CountAdminRows(more, c, u) == CountAdminRows(rest, c, u)
                                             + (if Is(m, c, u) && x.role.Admin? then 1 else 0)
  {
  }

  lemma {:induction false} SetRoleKeeps(members: seq<Member>, chat: int, target: int, role: Role, c: int, u: int)
    ensures var set' := SetRole(members, chat, target, role);
            && CountRows(set', c) == CountRows(members, c) && CountUser(set', c, u) == CountUser(members, c, u)
            && (c != chat ==> CountAdmins(set', c) == CountAdmins(members, c))
            && (c == chat && u != target ==> CountAdminRows(set', c, u) == CountAdminRows(members, c, u))
  {
    if members != [] {
      var n := |members| - 1;
      SetRoleKeeps(members[..n], chat, target, role, c, u);
      RankedCounts(SetRole(members[..n], chat, target, role), members[n], chat, target, role, c, u);
    }
  }

  lemma {:induction false} SetRoleAdmins(members: seq<Member>, chat: int, target: int, role: Role)
    ensures CountAdmins(SetRole(members, chat, target, role), chat)
         == CountAdmins(members, chat) - CountAdminRows(members, chat, target)
            + (if role.Admin? then CountUser(members, chat, target) else 0)
  {
    if members != [] {
      var n := |members| - 1;
      SetRoleAdmins(members[..n], chat, target, role);
      RankedCounts(SetRole(members[..n], chat, target, role), members[n], chat, target, role, chat, target);
    }
  }

  lemma SetRoleCounts(members: seq<Member>, chat: int, target: int, role: Role, c: int, u: int)
    ensures var set' := SetRole(members, chat, target, role);
            && CountRows(set', c) == CountRows(members, c) && CountUser(set', c, u) == CountUser(members, c, u)
            && (c != chat ==> CountAdmins(set', c) == CountAdmins(members, c))
            && (c == chat && u != target ==> CountAdminRows(set', c, u) == CountAdminRows(members, c, u))
            && CountAdmins(set', chat) == CountAdmins(members, chat) - CountAdminRows(members, chat, target)
                                           + (if role.Admin? then CountUser(members, chat, target) else 0)
  {
    SetRoleKeeps(members, chat, target, role, c, u);
    SetRoleAdmins(members, chat, target, role);
  }

  /** Inserting absent users never duplicates, and only the named admin gets the role. */
  lemma {:induction false} AddAllCounts(
      members: seq<Member>, chat: int, users: seq<int>, admin: Option<int>, c: int, u: int)
    ensures var more := AddAll(members, chat, users, admin);
            && (CountUser(members, c, u) <= 1 ==> CountUser(more, c, u) <= 1)
            && CountUser(more, c, u) >= CountUser(members, c, u)
            && CountRows(more, c) >= CountRows(members, c)
            && (c == chat && u in users ==> CountUser(more, c, u) >= 1)
            && (c != chat ==> CountUser(more, c, u) == CountUser(members, c, u)
                              && CountRows(more, c) == CountRows(members, c)
                              && CountAdmins(more, c) == CountAdmins(members, c))
            && (c == chat && admin.None? ==> CountAdmins(more, c) == CountAdmins(members, c))
            && (c == chat && admin.Some? ==>
                  CountAdmins(more, c) - CountAdmins(members, c)
                  == CountUser(more, c, admin.value) - CountUser(members, c, admin.value))
    decreases users
  {
    if users != [] {
      var v := users[0];
      var m := Member(chat, v, if admin == Some(v) then Admin else Plain);
      var next := if IsMember(members, chat, v) then members else members + [m];
      CountsDecide(members, chat, v);
      CountsAppend(members, m, c, u);
      CountsAppend(members, m, c, if admin.Some? then admin.value else u);
      AddAllCounts(next, chat, users[1..], admin, c, u);
      if u == v && c == chat {
        assert CountUser(next, c, u) >= 1;
      }
    }
  }

  // ---------------------------------------------------------------- the invariant

  ghost predicate GroupOk(s: Chats, c: int) {
    CountAdmins(s.members, c) == 1
  }

  ghost predicate PairOk(s: Chats, c: int) {
    && CountRows(s.members, c) == 2
    && exists a, b :: a != b && CountUser(s.members, c, a) == 1 && CountUser(s.members, c, b) == 1
  }

  ghost predicate NoDuplicates(s: Chats) {
    forall c, u :: CountUser(s.members, c, u) <= 1
  }

  /** Rows belong to existing chats only. */
  ghost predicate Rooted(s: Chats) {
    && (forall c :: c in s.sessions ==> c < s.nextId)
    && (forall c :: c !in s.sessions ==> CountRows(s.members, c) == 0)
  }

  ghost predicate PairsUnique(s: Chats) {
    forall c, d, a, b ::
      IsPrivate(s, c) && IsPrivate(s, d) && a != b && Having(s.members, c, a, b) && Having(s.members, d, a, b) ==>
      c == d
  }

  ghost predicate Inv(s: Chats) {
    && Rooted(s) && NoDuplicates(s) && PairsUnique(s)
    && (forall c :: IsGroup(s, c) ==> GroupOk(s, c))
    && (forall c :: IsPrivate(s, c) ==> PairOk(s, c))
  }

  ghost predicate SameRows(members: seq<Member>, members': seq<Member>, c: int) {
    && CountRows(members', c) == CountRows(members, c)
    && CountAdmins(members', c) == CountAdmins(members, c)
    && forall u :: CountUser(members', c, u) == CountUser(members, c, u)
  }

  /** The step leaves every other chat's rows as they were. */
  ghost predicate OnlyTouches(s: Chats, s': Chats, chat: int) {
    forall c :: c != chat ==> SameRows(s.members, s'.members, c)
  }

  lemma SameHaving(members: seq<Member>, members': seq<Member>, c: int, a: int, b: int)
    requires SameRows(members, members', c)
    ensures Having(members', c, a, b) <==> Having(members, c, a, b)
  {
  }

  /**
   * A step that touches one chat only keeps the invariant when that chat ends up
   * closed and empty, a group with one admin, or a new pair, without duplicates.
   */
  lemma OneChatKeepsInv(s: Chats, s': Chats, chat: int)
    requires Inv(s) && OnlyTouches(s, s', chat) && s.nextId <= s'.nextId && chat < s'.nextId
    requires forall c :: c != chat ==> (c in s'.sessions <==> c in s.sessions)
    requires forall c :: c in s'.sessions && c != chat ==> s'.sessions[c] == s.sessions[c]
    requires forall u :: CountUser(s'.members, chat, u) <= 1
    requires chat !in s'.sessions ==> CountRows(s'.members, chat) == 0
    requires IsGroup(s', chat) ==> GroupOk(s', chat)
    requires IsPrivate(s', chat) ==> PairOk(s', chat)
    requires IsPrivate(s', chat) ==>
               forall c, a, b :: IsPrivate(s, c) && a != b && Having(s.members, c, a, b) ==>
                 !Having(s'.members, chat, a, b)
    ensures Inv(s')
  {
    forall c | c != chat
      ensures IsPrivate(s', c) ==> PairOk(s', c)
      ensures IsGroup(s', c) ==> GroupOk(s', c)
      ensures c !in s'.sessions ==> CountRows(s'.members, c) == 0
      ensures c in s'.sessions ==> c < s'.nextId
    {
      assert SameRows(s.members, s'.members, c);
      if IsPrivate(s', c) {
        assert IsPrivate(s, c);
        var a, b :| a != b && CountUser(s.members, c, a) == 1 && CountUser(s.members, c, b) == 1;
        assert CountUser(s'.members, c, a) == 1 && CountUser(s'.members, c, b) == 1;
      }
      if IsGroup(s', c) {
        assert IsGroup(s, c);
      }
    }
    forall c, u
      ensures CountUser(s'.members, c, u) <= 1
    {
      if c != chat {
        assert SameRows(s.members, s'.members, c);
        assert CountUser(s'.members, c, u) == CountUser(s.members, c, u);
      }
    }
    forall c, d, a, b |
      IsPrivate(s', c) && IsPrivate(s', d) && a != b && Having(s'.members, c, a, b) && Having(s'.members, d, a, b)
      ensures c == d
    {
      if c != chat {
        SameHaving(s.members, s'.members, c, a, b);
        assert IsPrivate(s, c);
      }
      if d != chat {
        SameHaving(s.members, s'.members, d, a, b);
        assert IsPrivate(s, d);
      }
    }
  }

  // ---------------------------------------------------------------- every operation keeps it

  lemma BulkRemoveKeepsInv(s: Chats, e: Event)
    requires Inv(s) && e.DoBulkRemove? && Call(s, e).Some?
    ensures Inv(Step(s, e)) && OnlyTouches(s, Step(s, e), e.chat)
  {
    var s' := Step(s, e);
    forall c | c != e.chat
      ensures SameRows(s.members, s'.members, c)
    {
      forall u ensures CountUser(s'.members, c, u) == CountUser(s.members, c, u) {
        WithoutOther(s.members, e.chat, e.targets, true, c, u);
      }
      WithoutOther(s.members, e.chat, e.targets, true, c, 0);
    }
    forall u ensures CountUser(s'.members, e.chat, u) <= 1 { WithoutPlain(s.members, e.chat, e.targets, u); }
    WithoutPlain(s.members, e.chat, e.targets, 0);
    assert GroupOk(s, e.chat);
    OneChatKeepsInv(s, s', e.chat);
  }

  lemma AddAllTouches(s: Chats, s': Chats, chat: int, users: seq<int>, admin: Option<int>)
    requires s'.members == AddAll(s.members, chat, users, admin)
    ensures OnlyTouches(s, s', chat)
    ensures NoDuplicates(s) ==> forall u :: CountUser(s'.members, chat, u) <= 1
  {
    forall c | c != chat
      ensures SameRows(s.members, s'.members, c)
    {
      forall u ensures CountUser(s'.members, c, u) == CountUser(s.members, c, u) {
        AddAllCounts(s.members, chat, users, admin, c, u);
      }
      AddAllCounts(s.members, chat, users, admin, c, 0);
    }
    forall u
      ensures NoDuplicates(s) ==> CountUser(s'.members, chat, u) <= 1
    {
      AddAllCounts(s.members, chat, users, admin, chat, u);
    }
  }

  lemma AddKeepsInv(s: Chats, e: Event)
    requires Inv(s) && e.DoAdd? && Call(s, e).Some?
    ensures Inv(Step(s, e)) && OnlyTouches(s, Step(s, e), e.chat)
  {
    var s' := Step(s, e);
    AddAllTouches(s, s', e.chat, e.users, None);
    AddAllCounts(s.members, e.chat, e.users, None, e.chat, 0);
    assert GroupOk(s, e.chat);
    OneChatKeepsInv(s, s', e.chat);
  }

  lemma WithoutOneTouches(s: Chats, s': Chats, chat: int, target: int)
    requires s'.members == Without(s.members, chat, {target}, false)
    ensures OnlyTouches(s, s', chat)
    ensures NoDuplicates(s) ==> forall u :: CountUser(s'.members, chat, u) <= 1
  {
    forall c | c != chat
      ensures SameRows(s.members, s'.members, c)
    {
      forall u ensures CountUser(s'.members, c, u) == CountUser(s.members, c, u) {
        WithoutOther(s.members, chat, {target}, false, c, u);
      }
      WithoutOther(s.members, chat, {target}, false, c, 0);
    }
    forall u
      ensures NoDuplicates(s) ==> CountUser(s'.members, chat, u) <= 1
    {
      WithoutOne(s.members, chat, target, u);
    }
  }

  /** An admin, being the only one, cannot be removed or kicked. */
  lemma RemoveKeepsInv(s: Chats, e: Event)
    requires Inv(s) && (e.DoRemove? || e.DoKick?) && Call(s, e).Some?
    ensures Inv(Step(s, e)) && OnlyTouches(s, Step(s, e), e.chat)
  {
    var s' := Step(s, e);
    assert GroupOk(s, e.chat);
    CountsDecide(s.members, e.chat, e.target);
    WithoutOne(s.members, e.chat, e.target, 0);
    WithoutOneTouches(s, s', e.chat, e.target);
    OneChatKeepsInv(s, s', e.chat);
  }

  lemma SetRoleTouches(s: Chats, s': Chats, chat: int, target: int, role: Role)
    requires s'.members == SetRole(s.members, chat, target, role)
    ensures OnlyTouches(s, s', chat)
    ensures forall u :: CountUser(s'.members, chat, u) == CountUser(s.members, chat, u)
  {
    forall c
      ensures c != chat ==> SameRows(s.members, s'.members, c)
      ensures forall u :: CountUser(s'.members, c, u) == CountUser(s.members, c, u)
    {
      forall u ensures CountUser(s'.members, c, u) == CountUser(s.members, c, u) {
        SetRoleCounts(s.members, chat, target, role, c, u);
      }
      SetRoleCounts(s.members, chat, target, role, c, 0);
    }
    forall u ensures CountUser(s'.members, chat, u) == CountUser(s.members, chat, u) {
      SetRoleCounts(s.members, chat, target, role, chat, u);
    }
  }

  lemma TouchesTwice(s: Chats, mid: Chats, s': Chats, chat: int)
    requires OnlyTouches(s, mid, chat) && OnlyTouches(mid, s', chat)
    ensures OnlyTouches(s, s', chat)
  {
    forall c | c != chat
      ensures SameRows(s.members, s'.members, c)
    {
      assert SameRows(s.members, mid.members, c) && SameRows(mid.members, s'.members, c);
    }
  }

  lemma TransferKeepsInv(s: Chats, e: Event)
    requires Inv(s) && e.DoTransfer? && Call(s, e).Some?
    ensures Inv(Step(s, e)) && OnlyTouches(s, Step(s, e), e.chat)
  {
    if e.target != e.user {
      assert GroupOk(s, e.chat);
      var mid := s.(members := SetRole(s.members, e.chat, e.user, Plain));
      var s' := Step(s, e);
      SetRoleTouches(s, mid, e.chat, e.user, Plain);
      SetRoleTouches(mid, s', e.chat, e.target, Admin);
      CountsDecide(s.members, e.chat, e.user);
      CountsDecide(s.members, e.chat, e.target);
      TwoUsers(s.members, e.chat, e.user, e.target);
      SetRoleCounts(s.members, e.chat, e.user, Plain, e.chat, e.target);
      SetRoleCounts(mid.members, e.chat, e.target, Admin, e.chat, e.target);
      assert CountUser(s.members, e.chat, e.target) == 1;
      TouchesTwice(s, mid, s', e.chat);
      OneChatKeepsInv(s, s', e.chat);
    }
  }

  lemma CreateGroupKeepsInv(s: Chats, e: Event)
    requires Inv(s) && e.DoCreateGroup?
    ensures Inv(Step(s, e)) && OnlyTouches(s, Step(s, e), s.nextId)
  {
    var s', chat := Step(s, e), s.nextId;
    var all := if e.user in e.users then e.users else e.users + [e.user];
    assert chat !in s.sessions && CountRows(s.members, chat) == 0;
    AdminsAreRows(s.members, chat);
    CountsDecide(s.members, chat, e.user);
    AddAllTouches(s, s', chat, all, Some(e.user));
    AddAllCounts(s.members, chat, all, Some(e.user), chat, e.user);
    assert CountUser(s'.members, chat, e.user) == 1;
    OneChatKeepsInv(s, s', chat);
  }

  // ---------------------------------------------------------------- leaving

  /** A sole admin makes the first other member admin, who then is the only one besides. */
  lemma PromotionCounts(s: Chats, mid: Chats, chat: int, user: int, heir: int)
    requires NoDuplicates(s) && CountAdmins(s.members, chat) == 1 && IsAdmin(s.members, chat, user)
    requires user != heir && IsMember(s.members, chat, heir)
    requires mid.members == SetRole(s.members, chat, heir, Admin)
    ensures OnlyTouches(s, mid, chat) && NoDuplicates(mid)
    ensures CountRows(mid.members, chat) == CountRows(s.members, chat)
    ensures CountAdmins(mid.members, chat) == 2 && CountAdminRows(mid.members, chat, user) == 1
    ensures CountUser(mid.members, chat, user) == 1
  {
    SetRoleTouches(s, mid, chat, heir, Admin);
    SetRoleCounts(s.members, chat, heir, Admin, chat, user);
    CountsDecide(s.members, chat, user);
    CountsDecide(s.members, chat, heir);
    assert CountUser(s.members, chat, heir) == 1 && CountUser(s.members, chat, user) == 1;
    TwoUsers(s.members, chat, user, heir);
    forall c, u
      ensures CountUser(mid.members, c, u) <= 1
    {
      SetRoleCounts(s.members, chat, heir, Admin, c, u);
      assert CountUser(s.members, c, u) <= 1;
    }
  }

  /** The members of the chat after someone left. */
  lemma LeaveCounts(s: Chats, e: Event)
    requires Inv(s) && e.DoLeave? && Call(s, e).Some?
    ensures var s' := Step(s, e);
            && OnlyTouches(s, s', e.chat) && (forall u :: CountUser(s'.members, e.chat, u) <= 1)
            && CountRows(s'.members, e.chat) == CountRows(s.members, e.chat) - 1
            && (CountRows(s.members, e.chat) > 1 ==> CountAdmins(s'.members, e.chat) == 1)
            && (e.chat in s'.sessions <==> CountRows(s.members, e.chat) > 1)
  {
    var chat, user := e.chat, e.user;
    var s' := Step(s, e);
    assert GroupOk(s, chat);
    CountsDecide(s.members, chat, user);
    assert CountUser(s.members, chat, user) == 1;
    var other := FirstOther(s.members, chat, user);
    var mid := s;
    if IsAdmin(s.members, chat, user) && other.Some? {
      var heir := s.members[other.value].user;
      assert Is(s.members[other.value], chat, heir);
      mid := s.(members := SetRole(s.members, chat, heir, Admin));
      PromotionCounts(s, mid, chat, user, heir);
    }
    WithoutOneTouches(mid, s', chat, user);
    WithoutOne(mid.members, chat, user, 0);
    TouchesTwice(s, mid, s', chat);
  }

  lemma LeaveKeepsInv(s: Chats, e: Event)
    requires Inv(s) && e.DoLeave? && Call(s, e).Some?
    ensures Inv(Step(s, e)) && OnlyTouches(s, Step(s, e), e.chat)
  {
    LeaveCounts(s, e);
    CountsDecide(s.members, e.chat, e.user);
    assert CountUser(s.members, e.chat, e.user) <= 1;
    OneChatKeepsInv(s, Step(s, e), e.chat);
  }

  // ---------------------------------------------------------------- private chats

  /** The members are these two users, each once. */
  ghost predicate MembersAre(members: seq<Member>, chat: int, a: int, b: int) {
    forall u :: CountUser(members, chat, u) == if u == a || u == b then 1 else 0
  }

  /** The HAVING clause holds exactly when the two users are all the members, each once. */
  lemma HavingIffPair(members: seq<Member>, chat: int, a: int, b: int)
    requires a != b
    ensures Having(members, chat, a, b) <==> MembersAre(members, chat, a, b)
  {
    if Having(members, chat, a, b) {
      forall u
        ensures CountUser(members, chat, u) == if u == a || u == b then 1 else 0
      {
        if u != a && u != b {
          ThreeUsers(members, chat, a, b, u);
        }
      }
    }
    if MembersAre(members, chat, a, b) {
      assert CountUser(members, chat, a) == 1 && CountUser(members, chat, b) == 1;
      AllRowsCounted(members, chat, a, b);
    }
  }

  ghost predicate NobodyElse(members: seq<Member>, chat: int, a: int, b: int) {
    forall u :: CountUser(members, chat, u) == 0 || u == a || u == b
  }

  /** Rows of other users would be counted for those users. */
  lemma {:induction false} AllRowsCounted(members: seq<Member>, chat: int, a: int, b: int)
    requires a != b && NobodyElse(members, chat, a, b)
    ensures CountRows(members, chat) == CountUser(members, chat, a) + CountUser(members, chat, b)
  {
    if members != [] {
      var init, m := members[..|members| - 1], members[|members| - 1];
      assert members == init + [m];
      forall u
        ensures CountUser(init, chat, u) == 0 || u == a || u == b
      {
        CountsAppend(init, m, chat, u);
        assert CountUser(members, chat, u) == 0 || u == a || u == b;
      }
      CountsAppend(init, m, chat, m.user);
      assert CountUser(members, chat, m.user) == 0 || m.user == a || m.user == b;
      AllRowsCounted(init, chat, a, b);
    }
  }

  lemma PrivateKeepsInv(s: Chats, e: Event)
    requires Inv(s) && e.DoPrivate? && Call(s, e).Some?
    ensures Inv(Step(s, e)) && OnlyTouches(s, Step(s, e), s.nextId)
  {
    if !PairExists(s, e.user, e.target) {
      var s', chat := Step(s, e), s.nextId;
      assert CountRows(s.members, chat) == 0;
      NewPairCounts(s, s', e.user, e.target);
      assert PairOk(s', chat) by {
        assert CountUser(s'.members, chat, e.user) == 1 && CountUser(s'.members, chat, e.target) == 1;
      }
      forall c, a, b | IsPrivate(s, c) && a != b && Having(s.members, c, a, b)
        ensures !Having(s'.members, chat, a, b)
      {
        assert !Having(s.members, c, e.user, e.target) && !Having(s.members, c, e.target, e.user);
        assert CountUser(s'.members, chat, a) == if a == e.user || a == e.target then 1 else 0;
        assert CountUser(s'.members, chat, b) == if b == e.user || b == e.target then 1 else 0;
      }
      OneChatKeepsInv(s, s', chat);
    }
  }

  /** The rows after a private chat was created. */
  lemma NewPairCounts(s: Chats, s': Chats, a: int, b: int)
    requires a != b && CountRows(s.members, s.nextId) == 0
    requires s'.members == s.members + [Member(s.nextId, a, Plain)] + [Member(s.nextId, b, Plain)]
    ensures OnlyTouches(s, s', s.nextId) && CountRows(s'.members, s.nextId) == 2
    ensures forall u :: CountUser(s'.members, s.nextId, u) == if u == a || u == b then 1 else 0
  {
    var chat := s.nextId;
    var one := s.members + [Member(chat, a, Plain)];
    forall c, u
      ensures CountRows(s'.members, c) == CountRows(s.members, c) + (if c == chat then 2 else 0)
      ensures CountUser(s'.members, c, u) == CountUser(s.members, c, u)
                                             + (if c == chat && (u == a || u == b) then 1 else 0)
      ensures CountAdmins(s'.members, c) == CountAdmins(s.members, c)
    {
      CountsAppend(s.members, Member(chat, a, Plain), c, u);
      CountsAppend(one, Member(chat, b, Plain), c, u);
    }
    forall c | c != chat
      ensures SameRows(s.members, s'.members, c)
    {
      assert CountUser(s'.members, c, 0) == CountUser(s.members, c, 0);
    }
    forall u
      ensures CountUser(s'.members, chat, u) == if u == a || u == b then 1 else 0
    {
      CountsDecide(s.members, chat, u);
    }
  }

  lemma StepKeepsInv(s: Chats, e: Event)
    requires Inv(s)
    ensures Inv(Step(s, e))
  {
    if Call(s, e).Some? {
      match e
      case DoCreateGroup(_, _) => CreateGroupKeepsInv(s, e);
      case DoAdd(_, _, _) => AddKeepsInv(s, e);
      case DoBulkRemove(_, _, _) => BulkRemoveKeepsInv(s, e);
      case DoRemove(_, _, _) => RemoveKeepsInv(s, e);
      case DoKick(_, _, _) => RemoveKeepsInv(s, e);
      case DoLeave(_, _) => LeaveKeepsInv(s, e);
      case DoTransfer(_, _, _) => TransferKeepsInv(s, e);
      case DoPrivate(_, _) => PrivateKeepsInv(s, e);
    }
  }

  lemma {:induction false} RunKeepsInv(s: Chats, es: seq<Event>)
    requires Inv(s)
    ensures Inv(Run(s, es))
    decreases es
  {
    if es != [] {
      StepKeepsInv(s, es[0]);
      RunKeepsInv(Step(s, es[0]), es[1..]);
    }
  }

  lemma EmptyIsOk()
    ensures Inv(EMPTY)
  {
  }

  /** After every run: groups have members, one admin, nobody twice; private chats are unique pairs. */
  lemma MembershipInvariant(es: seq<Event>)
    ensures var s := Run(EMPTY, es);
      && (forall c :: IsGroup(s, c) ==> CountAdmins(s.members, c) == 1 && CountRows(s.members, c) >= 1)
      && (forall c, u :: CountUser(s.members, c, u) <= 1)
      && (forall c :: IsPrivate(s, c) ==> PairOk(s, c))
      && PairsUnique(s)
  {
    EmptyIsOk();
    RunKeepsInv(EMPTY, es);
    var s := Run(EMPTY, es);
    forall c | IsGroup(s, c)
      ensures CountRows(s.members, c) >= 1
    {
      AdminsAreRows(s.members, c);
    }
  }

  lemma {:induction false} AdminsAreRows(members: seq<Member>, c: int)
    ensures CountAdmins(members, c) <= CountRows(members, c)
  {
    if members != [] {
      AdminsAreRows(members[..|members| - 1], c);
    }
  }

  /** A group disappears exactly when its last member leaves. */
  lemma DeletedIffLastLeaves(s: Chats, e: Event, chat: int)
    requires Inv(s) && IsGroup(s, chat)
    ensures chat !in Step(s, e).sessions <==>
            e.DoLeave? && e.chat == chat && IsMember(s.members, chat, e.user) && CountRows(s.members, chat) == 1
  {
    if e.DoLeave? && Call(s, e).Some? {
      LeaveCounts(s, e);
      CountsDecide(s.members, e.chat, e.user);
    }
    assert GroupOk(s, chat);
    AdminsAreRows(s.members, chat);
  }

  /** Every call touches one chat, and never a private one. */
  lemma CallTouchesNoPrivate(s: Chats, e: Event) returns (touched: int)
    requires Inv(s)
    ensures OnlyTouches(s, Step(s, e), touched) && !IsPrivate(s, touched)
    ensures forall c :: IsPrivate(s, c) ==> IsPrivate(Step(s, e), c)
  {
    touched := s.nextId;
    if Call(s, e).Some? {
      match e
      case DoCreateGroup(_, _) => CreateGroupKeepsInv(s, e);
      case DoAdd(_, c, _) => AddKeepsInv(s, e); touched := c;
      case DoBulkRemove(_, c, _) => BulkRemoveKeepsInv(s, e); touched := c;
      case DoRemove(_, c, _) => RemoveKeepsInv(s, e); touched := c;
      case DoKick(_, c, _) => RemoveKeepsInv(s, e); touched := c;
      case DoLeave(_, c) => LeaveKeepsInv(s, e); touched := c;
      case DoTransfer(_, c, _) => TransferKeepsInv(s, e); touched := c;
      case DoPrivate(_, _) => PrivateKeepsInv(s, e);
    }
  }

  /** Over every run the members of a private chat stay the same two users. */
  lemma {:induction false} PrivateNeverChanges(s: Chats, es: seq<Event>, chat: int)
    requires Inv(s) && IsPrivate(s, chat)
    ensures IsPrivate(Run(s, es), chat) && SameRows(s.members, Run(s, es).members, chat)
    decreases es
  {
    if es != [] {
      var touched := CallTouchesNoPrivate(s, es[0]);
      StepKeepsInv(s, es[0]);
      var s' := Step(s, es[0]);
      assert SameRows(s.members, s'.members, chat);
      PrivateNeverChanges(s', es[1..], chat);
    }
  }
}
