/**
 The connections of one gateway and the services they expose. The gateway keeps every
 connection twice, in one list and in an index by user, both newest first; the index is
 what lookups use, and it always agrees with the list.
 */
module Connections {
  import opened Common
  import opened Hosts

  newtype Port = p: int | 0 <= p < 65536

  datatype ServiceError = ServiceAlreadyRegistered

  class Connection {
    const user: string
    var services: map<string, map<Port, bool>>

    constructor (user: string)
      ensures this.user == user && services == map[]
    {
      this.user := user;
      services := map[];
    }

    predicate Serves(host: string, port: Port)
      reads this
    {
      host in services && port in services[host] && services[host][port]
    }

    method LookupService(host: string, port: Port) returns (found: bool)
      ensures found == Serves(host, port)
    {
      if host !in services {
        return false;
      }
      found := port in services[host] && services[host][port];
    }

    method RegisterService(host: string, port: Port) returns (result: Result<(), ServiceError>)
      modifies this
      ensures result.Ok? <==> !old(Serves(host, port))
      ensures Serves(host, port)
      ensures forall h, p :: (h, p) != (host, port) ==> (Serves(h, p) <==> old(Serves(h, p)))
    {
      if host !in services {
        services := services[host := map[]];
      }
      if port in services[host] && services[host][port] {
        return Err(ServiceAlreadyRegistered);
      }
      services := services[host := services[host][port := true]];
      result := Ok(());
    }

    method DeregisterService(host: string, port: Port)
      modifies this
      ensures !Serves(host, port)
      ensures forall h, p :: (h, p) != (host, port) ==> (Serves(h, p) <==> old(Serves(h, p)))
    {
      if host in services {
        services := services[host := services[host] - {port}];
      }
    }
  }

  /** The connections of one user, in list order. */
  function OfUser(list: seq<Connection>, user: string): seq<Connection> {
    if list == [] then []
    else if list[0].user == user then [list[0]] + OfUser(list[1..], user)
    else OfUser(list[1..], user)
  }

  function Without(list: seq<Connection>, connection: Connection): seq<Connection> {
    if list == [] then []
    else if list[0] == connection then Without(list[1..], connection)
    else [list[0]] + Without(list[1..], connection)
  }

  /** The newest connection of the user that serves the host and port. */
  ghost function FirstServing(list: seq<Connection>, user: string, host: string, port: Port): Option<Connection>
    reads list
  {
    if list == [] then None
    else if list[0].user == user && list[0].Serves(host, port) then Some(list[0])
    else FirstServing(list[1..], user, host, port)
  }

  /** Deleting a connection and selecting a user's connections commute. */
  lemma {:induction false} WithoutOfUser(list: seq<Connection>, connection: Connection, user: string)
    ensures OfUser(Without(list, connection), user) == Without(OfUser(list, user), connection)
    ensures connection.user != user ==> OfUser(Without(list, connection), user) == OfUser(list, user)
  {
    if list != [] {
      WithoutOfUser(list[1..], connection, user);
      var rest := OfUser(list[1..], user);
      assert ([list[0]] + rest)[1..] == rest;
      var kept := Without(list[1..], connection);
      assert ([list[0]] + kept)[1..] == kept;
    }
  }

  lemma {:induction false} WithoutConcat(a: seq<Connection>, b: seq<Connection>, connection: Connection)
    ensures Without(a + b, connection) == Without(a, connection) + Without(b, connection)
  {
    if a == [] {
      assert a + b == b;
    } else {
      WithoutConcat(a[1..], b, connection);
      assert (a + b)[1..] == a[1..] + b;
      var rest, more := Without(a[1..], connection), Without(b, connection);
      assert [a[0]] + (rest + more) == ([a[0]] + rest) + more;
    }
  }

  /** What is left are all other connections, as often as they were there, in the order they had on both sides. */
  lemma {:induction false} WithoutMeaning(list: seq<Connection>, connection: Connection, i: nat)
    requires i <= |list|
    ensures multiset(Without(list, connection)) == multiset(list)[connection := 0]
    ensures connection !in list ==> Without(list, connection) == list
    ensures Without(list, connection) == Without(list[..i], connection) + Without(list[i..], connection)
  {
    WithoutConcat(list[..i], list[i..], connection);
    assert list[..i] + list[i..] == list;
    if list != [] {
      WithoutMeaning(list[1..], connection, 0);
      assert list == [list[0]] + list[1..];
    }
  }

  /** Searching the index entry of a user finds what searching the whole list for the user finds. */
  lemma {:induction false} IndexSearchesTheList(list: seq<Connection>, user: string, host: string, port: Port)
    ensures FirstServing(OfUser(list, user), user, host, port) == FirstServing(list, user, host, port)
  {
    if list != [] {
      IndexSearchesTheList(list[1..], user, host, port);
      var rest := OfUser(list[1..], user);
      assert ([list[0]] + rest)[1..] == rest;
    }
  }

  /** What FirstServing means: a serving connection of the user with none newer, or none at all. */
  lemma {:induction false} FirstServingIsNewest(list: seq<Connection>, user: string, host: string, port: Port)
    ensures var found := FirstServing(list, user, host, port);
            if found.None?
            then forall i | 0 <= i < |list| && list[i].user == user :: !list[i].Serves(host, port)
            else exists j | 0 <= j < |list| ::
                   && list[j] == found.value && list[j].user == user && list[j].Serves(host, port)
                   && forall i | 0 <= i < j && list[i].user == user :: !list[i].Serves(host, port)
  {
    if list != [] && !(list[0].user == user && list[0].Serves(host, port)) {
      FirstServingIsNewest(list[1..], user, host, port);
      var found := FirstServing(list[1..], user, host, port);
      if found.Some? {
        var j :| 0 <= j < |list[1..]| && list[1..][j] == found.value && list[1..][j].user == user
            && list[1..][j].Serves(host, port)
                 && forall i | 0 <= i < j && list[1..][i].user == user :: !list[1..][i].Serves(host, port);
        assert list[j + 1] == found.value;
        forall i | 0 <= i < j + 1 && list[i].user == user ensures !list[i].Serves(host, port) {
          if i > 0 { assert list[i] == list[1..][i - 1]; }
        }
      }
    }
  }

  /** The first cut, longest user first, at which some connection serves. */
  ghost function SearchFrom(list: seq<Connection>, host: string, port: Port, index: nat): Option<(Connection, string)>
    reads list
    requires index <= |Split(host)|
    decreases |Split(host)| - index
  {
    if index == |Split(host)| then None
    else
      var found := FirstServing(list, UserAt(host, index), ServiceHostAt(host, index), port);
      if found.Some? then Some((found.value, ServiceHostAt(host, index))) else SearchFrom(list, host, port, index + 1)
  }

  /** The connection at position i exposes the requested service under the cut. */
  ghost predicate Matches(list: seq<Connection>, i: nat, host: string, service: string, port: Port)
    reads list
    requires i < |list|
  {
    IsCut(host, service, list[i].user) && list[i].Serves(service, port)
  }

  /** The newest of the matches with the longest user. */
  ghost predicate IsBest(list: seq<Connection>, j: nat, host: string, service: string, port: Port)
    reads list
    requires j < |list|
  {
    && Matches(list, j, host, service, port)
    && forall i, service' | 0 <= i < |list| && Matches(list, i, host, service', port) ::
         |list[i].user| < |list[j].user| || (list[i].user == list[j].user && service' == service && j <= i)
  }

  lemma {:induction false} SearchMeaning(list: seq<Connection>, host: string, port: Port, index: nat)
    requires index <= |Split(host)|
    requires forall i, k | 0 <= i < |list| && 0 <= k < index && list[i].user == UserAt(host, k) ::
               !list[i].Serves(ServiceHostAt(host, k), port)
    ensures var found := SearchFrom(list, host, port, index);
            if found.None?
            then forall i, service | 0 <= i < |list| :: !Matches(list, i, host, service, port)
            else exists j | 0 <= j < |list| :: list[j] == found.value.0 && IsBest(list, j, host, found.value.1, port)
    decreases |Split(host)| - index
  {
    if index == |Split(host)| {
      forall i, service | 0 <= i < |list| ensures !Matches(list, i, host, service, port) {
        if Matches(list, i, host, service, port) {
          var k := CutIsIndex(host, service, list[i].user);
          assert false;
        }
      }
    } else {
      var user, service := UserAt(host, index), ServiceHostAt(host, index);
      FirstServingIsNewest(list, user, service, port);
      var found := FirstServing(list, user, service, port);
      if found.None? {
        SearchMeaning(list, host, port, index + 1);
      } else {
        var j :| 0 <= j < |list| && list[j] == found.value && list[j].user == user && list[j].Serves(service, port)
                 && forall i | 0 <= i < j && list[i].user == user :: !list[i].Serves(service, port);
        IndexIsCut(host, index);
        FirstMatchIsBest(list, j, host, port, index);
      }
    }
  }

  lemma FirstMatchIsBest(list: seq<Connection>, j: nat, host: string, port: Port, index: nat)
    requires j < |list| && index < |Split(host)| && list[j].user == UserAt(host, index)
    requires Matches(list, j, host, ServiceHostAt(host, index), port)
    requires forall i, k | 0 <= i < |list| && 0 <= k < index && list[i].user == UserAt(host, k) ::
               !list[i].Serves(ServiceHostAt(host, k), port)
    requires forall i | 0 <= i < j && list[i].user == UserAt(host, index) ::
               !list[i].Serves(ServiceHostAt(host, index), port)
    ensures IsBest(list, j, host, ServiceHostAt(host, index), port)
  {
    forall i, service' | 0 <= i < |list| && Matches(list, i, host, service', port)
      ensures |list[i].user| < |list[j].user|
                || (list[i].user == list[j].user && service' == ServiceHostAt(host, index) && j <= i)
    {
      var k := CutIsIndex(host, service', list[i].user);
      assert k >= index;
      if k > index {
        UsersShrink(host, index, k);
      }
    }
  }

  class Registry {
    var connectionsIndex: map<string, seq<Connection>>
    var connectionsList: seq<Connection>

    constructor ()
      ensures Valid() && connectionsList == []
    {
      connectionsIndex := map[];
      connectionsList := [];
    }

    function Indexed(user: string): seq<Connection>
      reads this
    {
      if user in connectionsIndex then connectionsIndex[user] else []
    }

    /** Each user's index entry is the list filtered by that user, in the same order. */
    ghost predicate Valid()
      reads this
    {
      forall user :: Indexed(user) == OfUser(connectionsList, user)
    }

    method AddConnection(connection: Connection)
      requires Valid()
      modifies this
      ensures Valid() && connectionsList == [connection] + old(connectionsList)
    {
      connectionsIndex := connectionsIndex[connection.user := [connection] + Indexed(connection.user)];
      connectionsList := [connection] + connectionsList;
      assert connectionsList[1..] == old(connectionsList);
    }

    method DeleteConnection(connection: Connection)
      requires Valid()
      modifies this
      ensures Valid() && connectionsList == Without(old(connectionsList), connection)
    {
      var indexed := Indexed(connection.user);
      var connections := Filter(indexed, connection);
      connectionsIndex := connectionsIndex[connection.user := connections];
      connections := Filter(connectionsList, connection);
      connectionsList := connections;
      forall user ensures Indexed(user) == OfUser(connectionsList, user) {
        WithoutOfUser(old(connectionsList), connection, user);
      }
    }

    /** The loop both tables are rebuilt with. */
    static method Filter(all: seq<Connection>, connection: Connection) returns (connections: seq<Connection>)
      ensures connections == Without(all, connection)
    {
      connections := [];
      for i := 0 to |all|
        invariant connections == Without(all[..i], connection)
      {
        assert all[..i + 1] == all[..i] + [all[i]];
        WithoutConcat(all[..i], [all[i]], connection);
        if all[i] != connection {
          connections := connections + [all[i]];
        }
      }
      assert all[..|all|] == all;
    }

    /**
     A result is the newest connection at the longest matching user suffix of the host, and
     nil means that no cut of the host matches any connection.
     */
    method LookupConnectionService(host: string, port: Port)
      returns (found: Connection?, service: string, servicePort: Port)
      requires Valid()
      ensures found == null ==>
                && service == "" && servicePort == 0
                && forall i, h | 0 <= i < |connectionsList| :: !Matches(connectionsList, i, host, h, port)
      ensures found != null ==>
                && servicePort == port
                && exists j | 0 <= j < |connectionsList| ::
                    connectionsList[j] == found && IsBest(connectionsList, j, host, service, port)
    {
      var parts := Split(host);
      SearchMeaning(connectionsList, host, port, 0);
      for index := 0 to |parts|
        invariant SearchFrom(connectionsList, host, port, index) == SearchFrom(connectionsList, host, port, 0)
      {
        var serviceHost := Join(parts[..index]);
        var user := Join(parts[index..]);
        var connections := Indexed(user);
        IndexSearchesTheList(connectionsList, user, serviceHost, port);
        for k := 0 to |connections|
          invariant FirstServing(connections[k..], user, serviceHost, port)
              == FirstServing(connections, user, serviceHost, port)
        {
          OfUserOnly(connectionsList, user, k);
          assert connections[k..][1..] == connections[k + 1..];
          var serves := connections[k].LookupService(serviceHost, port);
          if serves {
            return connections[k], serviceHost, port;
          }
        }
      }
      return null, "", 0;
    }

    /** The distinct users with a connection; peer connections are indexed under an empty user. */
    method ConnectedUserIds() returns (userIds: seq<string>)
      requires Valid()
      ensures forall user :: user in userIds <==> user != "" && exists c | c in connectionsList :: c.user == user
      ensures forall i, j | 0 <= i < j < |userIds| :: userIds[i] != userIds[j]
    {
      userIds := [];
      var users := connectionsIndex.Keys;
      while users != {}
        invariant users <= connectionsIndex.Keys
        invariant forall user ::
            user in userIds <==> user in connectionsIndex.Keys - users && user != "" && connectionsIndex[user] != []
        invariant forall i, j | 0 <= i < j < |userIds| :: userIds[i] != userIds[j]
      {
        var user :| user in users;
        users := users - {user};
        if user != "" && |connectionsIndex[user]| != 0 {
          userIds := userIds + [user];
        }
      }
      forall user ensures user in userIds <==> user != "" && exists c | c in connectionsList :: c.user == user {
        assert Indexed(user) == OfUser(connectionsList, user);
        OfUserEmpty(connectionsList, user);
      }
    }
  }

  lemma {:induction false} OfUserOnly(list: seq<Connection>, user: string, k: nat)
    requires k < |OfUser(list, user)|
    ensures OfUser(list, user)[k].user == user
  {
    if list[0].user == user {
      if k > 0 { OfUserOnly(list[1..], user, k - 1); }
    } else {
      OfUserOnly(list[1..], user, k);
    }
  }

  lemma {:induction false} OfUserEmpty(list: seq<Connection>, user: string)
    ensures OfUser(list, user) == [] <==> forall c | c in list :: c.user != user
  {
    if list != [] {
      OfUserEmpty(list[1..], user);
      assert list == [list[0]] + list[1..];
    }
  }
}
