/** The membership handlers of app/api/chat.py as code that updates the tables in place. */
module ChatHandlers {
  import opened Prelude
  import opened Chat
  import opened ChatRows

  /** Nobody else was there before exactly when nobody else remains. */
  lemma RemainingAfterLeave(rows: seq<Member>, chat: int, user: int)
    ensures FirstOther(Without(Promoted(rows, chat, user), chat, {user}, false), chat, user).None?
            <==> FirstOther(rows, chat, user).None?
  {
    var before, other := Promoted(rows, chat, user), FirstOther(rows, chat, user);
    CountsDecide(rows, chat, user);
    if other.Some? {
      SetRoleCounts(rows, chat, rows[other.value].user, Admin, chat, user);
    }
    WithoutOne(before, chat, user, user);
    CountsDecide(Without(before, chat, {user}, false), chat, user);
  }

  lemma {:induction false} SetRoleSize(rows: seq<Member>, chat: int, user: int, role: Role)
    ensures |SetRole(rows, chat, user, role)| == |rows|
  {
    if rows != [] {
      SetRoleSize(rows[..|rows| - 1], chat, user, role);
    }
  }

  /** Rewriting row i behind the rewritten rows before it. */
  lemma SetRoleStep(rows: seq<Member>, i: nat, chat: int, user: int, role: Role)
    requires i < |rows|
    ensures var part := SetRole(rows[..i], chat, user, role) + rows[i..];
            && i < |part| && part[i] == rows[i]
            && part[i := Ranked(rows[i], chat, user, role)] == SetRole(rows[..i + 1], chat, user, role) + rows[i + 1..]
            && part[i := rows[i]] == part
  {
    SetRoleSize(rows[..i], chat, user, role);
    assert rows[..i + 1][..i] == rows[..i];
    ReplaceHead(SetRole(rows[..i], chat, user, role), rows[i..], Ranked(rows[i], chat, user, role));
    assert rows[i..][1..] == rows[i + 1..];
  }

  // ---------------------------------------------------------------- the handlers in place

  class ChatDesk {
    var sessions: map<int, Session>
    var nextId: int
    var members: seq<Member>

    function State(): Chats
      reads this
    {
      Chats(sessions, nextId, members)
    }

    constructor ()
      ensures State() == EMPTY
    {
      sessions, nextId, members := map[], 1, [];
    }

    method InsertMembers(chat: int, users: seq<int>, admin: Option<int>)
      modifies this`members
      ensures members == AddAll(old(members), chat, users, admin)
    {
      for i := 0 to |users|
        invariant AddAll(members, chat, users[i..], admin) == AddAll(old(members), chat, users, admin)
      {
        var uid := users[i];
        assert users[i..][0] == uid && users[i..][1..] == users[i + 1..];
        if !IsMember(members, chat, uid) {
          members := members + [Member(chat, uid, if admin == Some(uid) then Admin else Plain)];
        }
      }
    }

    method DeleteMembers(chat: int, users: set<int>, keepAdmins: bool)
      modifies this`members
      ensures members == Without(old(members), chat, users, keepAdmins)
    {
      var rows := members;
      members := [];
      for i := 0 to |rows|
        invariant members == Without(rows[..i], chat, users, keepAdmins)
      {
        assert rows[..i + 1][..i] == rows[..i];
        var m := rows[i];
        if m.chat == chat && m.user in users {
          if keepAdmins && m.role.Admin? {
            members := members + [m];
          }
        } else {
          members := members + [m];
        }
      }
      assert rows[..|rows|] == rows;
    }

    method AssignRole(chat: int, user: int, role: Role)
      modifies this`members
      ensures members == SetRole(old(members), chat, user, role)
    {
      var rows := members;
      for i := 0 to |rows|
        invariant members == SetRole(rows[..i], chat, user, role) + rows[i..]
      {
        SetRoleStep(rows, i, chat, user, role);
        if members[i].chat == chat && members[i].user == user {
          members := members[i := members[i].(role := role)];
        }
      }
      assert rows[..|rows|] == rows;
    }

    method CreateGroupChat(user: int, users: seq<int>)
      modifies this
      ensures State() == Step(old(State()), DoCreateGroup(user, users))
      ensures nextId == old(nextId) + 1 && sessions == old(sessions)[old(nextId) := Session(GroupChat, user)]
      ensures InsertsAll(old(members), members, old(nextId), if user in users then users else users + [user],
                         Some(user))
    {
      CreateGroupHolds(State(), user, users);
      var all := users;
      if user !in all {
        all := all + [user];
      }
      var id := nextId;
      sessions := sessions[id := Session(GroupChat, user)];
      nextId := nextId + 1;
      InsertMembers(id, all, Some(user));
    }

    method AddGroupMembers(user: int, chat: int, users: seq<int>) returns (ok: bool)
      modifies this`members
      ensures State() == Step(old(State()), DoAdd(user, chat, users))
      ensures ok <==> MayManage(old(State()), user, chat) && users != []
      ensures if ok then InsertsAll(old(members), members, chat, users, None) else members == old(members)
    {
      AddHolds(State(), user, chat, users);
      if !IsGroup(State(), chat) || !IsAdmin(members, chat, user) || users == [] {
        return false;
      }
      InsertMembers(chat, users, None);
      ok := true;
    }

    method RemoveMultipleMembers(user: int, chat: int, targets: set<int>) returns (ok: bool)
      modifies this`members
      ensures State() == Step(old(State()), DoBulkRemove(user, chat, targets))
      ensures ok <==> MayManage(old(State()), user, chat)
      ensures if ok then Removes(old(members), members, chat, targets, true) else members == old(members)
    {
      BulkRemoveHolds(State(), user, chat, targets);
      if !IsGroup(State(), chat) || !IsAdmin(members, chat, user) {
        return false;
      }
      DeleteMembers(chat, targets, true);
      ok := true;
    }

    method RemoveOrKick(user: int, chat: int, target: int, kick: bool) returns (ok: bool)
      modifies this`members
      ensures ok <==> MayRemove(old(State()), user, chat, target, kick)
      ensures if ok then Removes(old(members), members, chat, {target}, false) else members == old(members)
      ensures State() == Step(old(State()), if kick then DoKick(user, chat, target) else DoRemove(user, chat, target))
    {
      RemoveHolds(State(), user, chat, target, kick);
      if !IsGroup(State(), chat) || target == sessions[chat].createdBy || !IsAdmin(members, chat, user) {
        return false;
      }
      if !kick && target == user {
        return false;
      }
      if !IsMember(members, chat, target) {
        return false;
      }
      if IsAdmin(members, chat, target) && CountAdmins(members, chat) == 1 {
        return false;
      }
      DeleteMembers(chat, {target}, false);
      ok := true;
    }

    method LeaveGroup(user: int, chat: int) returns (ok: bool)
      modifies this
      ensures State() == Step(old(State()), DoLeave(user, chat))
      ensures ok <==> AGroup(old(State()), chat) && HasRow(old(members), chat, user)
      ensures if ok then Leaves(old(State()), State(), user, chat) else State() == old(State())
    {
      LeaveIff(State(), user, chat);
      if !IsGroup(State(), chat) || !IsMember(members, chat, user) {
        return false;
      }
      LeaveHolds(State(), user, chat);
      LeaveRows(user, chat);
      ok := true;
    }

    /** The only admin hands the role to the first other member, if there is one. */
    method PromoteHeir(user: int, chat: int)
      modifies this`members
      ensures members == Promoted(old(members), chat, user)
    {
      if IsAdmin(members, chat, user) && CountAdmins(members, chat) == 1 {
        var candidate := FirstOther(members, chat, user);
        if candidate.Some? && candidate.value < |members| {
          AssignRole(chat, members[candidate.value].user, Admin);
        }
      }
    }

    /** The writes of an accepted call: promote, delete, and close an empty group. */
    method LeaveRows(user: int, chat: int)
      requires Call(State(), DoLeave(user, chat)).Some?
      modifies this
      ensures State() == Step(old(State()), DoLeave(user, chat))
    {
      LeaveWrites(State(), user, chat);
      RemainingAfterLeave(members, chat, user);
      FirstOtherIsFirst(members, chat, user);
      PromoteHeir(user, chat);
      DeleteMembers(chat, {user}, false);
      var remaining := FirstOther(members, chat, user);
      if remaining.None? {
        sessions := sessions - {chat};
      }
    }

    method TransferAdminRole(user: int, chat: int, target: int) returns (ok: bool)
      modifies this`members
      ensures State() == Step(old(State()), DoTransfer(user, chat, target))
      ensures ok <==> MayManage(old(State()), user, chat) && HasRow(old(members), chat, target)
      ensures if ok && target != user
              then Transfers(old(members), members, chat, user, target)
                   && HasAdminRow(members, chat, target) && !HasAdminRow(members, chat, user)
              else members == old(members)
    {
      TransferHolds(State(), user, chat, target);
      if !IsGroup(State(), chat) || !IsAdmin(members, chat, user) || !IsMember(members, chat, target) {
        return false;
      }
      if target == user {
        return true;
      }
      AssignRole(chat, user, Plain);
      AssignRole(chat, target, Admin);
      ok := true;
    }

    method CreatePrivateChat(user: int, target: int) returns (ok: bool)
      modifies this
      ensures State() == Step(old(State()), DoPrivate(user, target))
      ensures ok <==> user != target
      ensures if !ok || exists c :: IsPairOf(old(State()), c, user, target) then State() == old(State())
              else nextId == old(nextId) + 1 && sessions == old(sessions)[old(nextId) := Session(Private, user)]
                   && members == old(members) + [Member(old(nextId), user, Plain), Member(old(nextId), target, Plain)]
    {
      PrivateHolds(State(), user, target);
      if user == target {
        return false;
      }
      if PairExists(State(), user, target) {
        return true;
      }
      var id := nextId;
      sessions := sessions[id := Session(Private, user)];
      nextId := nextId + 1;
      members := members + [Member(id, user, Plain)];
      members := members + [Member(id, target, Plain)];
      ok := true;
    }
  }
}
