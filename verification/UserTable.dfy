/**
 The "user" and "node" tables. Every operation is one SQL statement, so it is one
 atomic function from table contents to table contents. A statement carries the
 time stamp that its caller read before sending it, which can be older than the
 moment it takes effect.
 */
module UserTable {
  import opened Common

  /** A row of "user": node_id is nullable, the column was added to existing rows. */
  datatype UserRow = UserRow(
    nodeId: Option<string>,
    onlineAt: Time,
    modifiedAt: Time,
    disabled: bool,
    administrator: bool)

  /** A row of "node". */
  datatype NodeRow = NodeRow(online: bool, onlineAt: Time)

  type Users = map<string, UserRow>
  type Nodes = map<string, NodeRow>

  /** A heartbeat younger than this counts as online. */
  const STALE_AFTER: Time := 90

  predicate IsHeartbeatFresh(onlineAt: Time, now: Time) {
    onlineAt != ZERO_TIME && now - onlineAt < STALE_AFTER
  }

  /** The sub-query of the adoption rule: the nodes whose heartbeat is newer than the cutoff. */
  predicate LiveNode(nodes: Nodes, id: string, staleBefore: Time) {
    id in nodes && nodes[id].online && nodes[id].onlineAt > staleBefore
  }

  predicate UserNodeGone(row: UserRow, nodes: Nodes, staleBefore: Time) {
    || row.nodeId.None?
    || row.nodeId.value == ""
    || !LiveNode(nodes, row.nodeId.value, staleBefore)
  }

  predicate Names(users: Users, user: string, node: string) {
    user in users && users[user].nodeId == Some(node)
  }

  function MarkRow(row: UserRow, nodes: Nodes, node: string, now: Time, staleAfter: Time): UserRow {
    if node != "" && UserNodeGone(row, nodes, now - staleAfter)
    then row.(onlineAt := now, modifiedAt := now, nodeId := Some(node))
    else row.(onlineAt := now)
  }

  function MarkUsersOnline(users: Users, nodes: Nodes, ids: set<string>, node: string, now: Time,
      staleAfter: Time): Users {
    map user | user in users ::
      if user in ids then MarkRow(users[user], nodes, node, now, staleAfter) else users[user]
  }

  function ClearUserNodeID(users: Users, user: string, node: string, now: Time): Users {
    if Names(users, user, node)
    then users[user := users[user].(nodeId := Some(""), modifiedAt := now)]
    else users
  }

  /** Presence is kept unchanged for a disabled user, whose login is about to be rejected. */
  function UpsertUserOnConnect(users: Users, user: string, node: string, now: Time): Users {
    if user !in users then
      users[user := UserRow(Some(node), now, now, false, false)]
    else if users[user].disabled then
      users[user := users[user].(modifiedAt := now)]
    else
      users[user := users[user].(nodeId := Some(node), onlineAt := now, modifiedAt := now)]
  }

  function GetUserNodeID(users: Users, user: string): string {
    if user in users && users[user].nodeId.Some? then users[user].nodeId.value else ""
  }

  function ListOnlineUsers(users: Users, since: Time): set<string> {
    set user | user in users && users[user].onlineAt > since
  }

  /** Who is listed as online is who counts as online; only a stamp that was never set could tell them apart. */
  lemma ListedAreOnline(users: Users, user: string, now: Time)
    ensures user in ListOnlineUsers(users, now - STALE_AFTER) && users[user].onlineAt != ZERO_TIME <==>
              user in users && IsHeartbeatFresh(users[user].onlineAt, now)
  {
  }

  function PutNode(nodes: Nodes, node: string, online: bool, now: Time): Nodes {
    nodes[node := NodeRow(online, now)]
  }
}
