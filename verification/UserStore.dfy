/** The database that the gateways share, statement by statement, over its two tables. */
module UserStore {
  import opened Common
  import opened UserTable

  /** Node id and heartbeat, the columns that routing and online status are read from. */
  predicate SamePresence(a: UserRow, b: UserRow) {
    a.nodeId == b.nodeId && a.onlineAt == b.onlineAt
  }

  predicate SameFlags(a: UserRow, b: UserRow) {
    a.disabled == b.disabled && a.administrator == b.administrator
  }

  class Database {
    var users: Users
    var nodes: Nodes

    constructor ()
      ensures users == map[] && nodes == map[]
    {
      users, nodes := map[], map[];
    }

    /**
     Refreshes the given users, and moves those whose recorded node is gone to this node.
     Every row is judged by what it held before the statement.
     */
    method MarkUsersOnline(ids: seq<string>, node: string, now: Time, staleAfter: Time)
      modifies this`users
      ensures users == UserTable.MarkUsersOnline(old(users), nodes, (set id | id in ids), node, now, staleAfter)
      ensures users.Keys == old(users).Keys
      ensures forall user | user in users && user !in ids :: users[user] == old(users)[user]
      ensures forall user | user in users && user in ids ::
                users[user].onlineAt == now && SameFlags(users[user], old(users)[user])
      ensures forall user | user in users && user in ids && node != "" ::
                if UserNodeGone(old(users)[user], nodes, now - staleAfter)
                then users[user].nodeId == Some(node) && users[user].modifiedAt == now
                else
                  && users[user].nodeId == old(users)[user].nodeId
                  && users[user].modifiedAt == old(users)[user].modifiedAt
      ensures node == "" ==> forall user | user in users ::
                users[user].nodeId == old(users)[user].nodeId && users[user].modifiedAt == old(users)[user].modifiedAt
    {
      if |ids| == 0 {
        return;
      }
      var before := users;
      var staleBefore := now - staleAfter;
      var rest := before.Keys;
      while rest != {}
        invariant rest <= before.Keys && users.Keys == before.Keys
        invariant forall user | user in rest :: users[user] == before[user]
        invariant forall user | user in before && user !in rest ::
                    users[user] == if user in ids then MarkRow(before[user], nodes, node, now, staleAfter)
                        else before[user]
      {
        var user :| user in rest;
        rest := rest - {user};
        if user in ids {
          var row := before[user].(onlineAt := now);
          if node != "" && (row.nodeId.None? || row.nodeId.value == ""
              || !LiveNode(nodes, row.nodeId.value, staleBefore)) {
            row := row.(modifiedAt := now, nodeId := Some(node));
          }
          users := users[user := row];
        }
      }
    }

    /** Releases the user only if the row still names this node. */
    method ClearUserNodeID(user: string, node: string, now: Time)
      modifies this`users
      ensures users == UserTable.ClearUserNodeID(old(users), user, node, now)
      ensures !Names(users, user, node) || node == ""
      ensures !Names(old(users), user, node) ==> users == old(users)
      ensures Names(old(users), user, node) ==>
                && users.Keys == old(users).Keys && users[user].nodeId == Some("") && users[user].modifiedAt == now
                && users[user].onlineAt == old(users)[user].onlineAt && SameFlags(users[user], old(users)[user])
                && forall other | other in users && other != user :: users[other] == old(users)[other]
    {
      if user in users && users[user].nodeId == Some(node) {
        users := users[user := users[user].(nodeId := Some(""), modifiedAt := now)];
      }
    }

    /** Records a login and returns the stored row; a disabled user's presence stays as it was. */
    method UpsertUserOnConnect(user: string, node: string, now: Time) returns (stored: UserRow)
      modifies this`users
      ensures users == UserTable.UpsertUserOnConnect(old(users), user, node, now)
      ensures user in users && stored == users[user]
      ensures users.Keys == old(users).Keys + {user} && stored.modifiedAt == now
      ensures user !in old(users) ==> !stored.disabled && !stored.administrator
      ensures user in old(users) ==> SameFlags(stored, old(users)[user])
      ensures user in old(users) && stored.disabled ==> SamePresence(stored, old(users)[user])
      ensures !stored.disabled ==> stored.nodeId == Some(node) && stored.onlineAt == now
      ensures forall other | other in old(users) && other != user :: other in users && users[other] == old(users)[other]
    {
      stored := UserRow(Some(node), now, now, false, false);
      if user in users {
        var row := users[user];
        stored := row.(
          modifiedAt := now,
          nodeId := if row.disabled then row.nodeId else Some(node),
          onlineAt := if row.disabled then row.onlineAt else now);
      }
      users := users[user := stored];
    }

    method GetUserNodeID(user: string) returns (node: string)
      ensures node == UserTable.GetUserNodeID(users, user)
      ensures node != "" <==> user in users && users[user].nodeId.Some? && users[user].nodeId.value != ""
      ensures node != "" ==> Names(users, user, node)
    {
      if user !in users {
        return "";
      }
      match users[user].nodeId
      case None => return "";
      case Some(id) => return id;
    }

    method ListOnlineUsers(since: Time) returns (list: seq<string>)
      ensures forall user :: user in list <==> user in users && users[user].onlineAt > since
      ensures (set user | user in list) == UserTable.ListOnlineUsers(users, since)
      ensures forall i, j | 0 <= i < j < |list| :: list[i] != list[j]
    {
      list := [];
      var rest := users.Keys;
      while rest != {}
        invariant rest <= users.Keys
        invariant forall user :: user in list <==> user in users && user !in rest && users[user].onlineAt > since
        invariant forall i, j | 0 <= i < j < |list| :: list[i] != list[j]
      {
        var user :| user in rest;
        rest := rest - {user};
        if users[user].onlineAt > since {
          list := list + [user];
        }
      }
    }

    /** From now on the node counts as live exactly up to cutoffs before its stamp, and only if it is online. */
    method PutNode(node: string, online: bool, now: Time)
      modifies this`nodes
      ensures nodes == UserTable.PutNode(old(nodes), node, online, now)
      ensures forall cutoff :: LiveNode(nodes, node, cutoff) <==> online && now > cutoff
      ensures forall other, cutoff | other != node ::
                LiveNode(nodes, other, cutoff) <==> LiveNode(old(nodes), other, cutoff)
    {
      nodes := nodes[node := NodeRow(online, now)];
    }
  }
}
