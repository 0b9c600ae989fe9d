/**
 A tunnel request on its way through the mesh. Whatever the lookup tables, caches and peer
 tables of the nodes hold, and however they change while the request is under way, it
 crosses at most one peer link and then ends.
 */
module Mesh {
  import opened Common
  import opened TunnelData

  /** The extensions granted to an authenticated connection. */
  type Extensions = map<string, string>

  const PEER_USER := "peer"

  /** Certificate checks are done; what is left is what they grant. */
  function Authenticate(user: string, keyId: string, certificate: Extensions, administrator: bool): Option<Extensions> {
    if user == PEER_USER then
      if keyId == "" then None else Some(map["peer" := "", "identity" := keyId])
    else
      var granted := certificate - {"peer", "identity"};
      Some(if administrator then granted["administrator" := ""] else granted)
  }

  datatype Session = Session(nodeId: string, permitPortForwarding: bool)

  function OpenSession(extensions: Extensions): Session {
    Session(if "peer" in extensions && "identity" in extensions then extensions["identity"] else "",
            "permit-port-forwarding" in extensions)
  }

  /** A connection counts as a peer's exactly when it logged in as one, whatever its certificate says. */
  lemma OnlyPeersArePeers(user: string, keyId: string, certificate: Extensions, administrator: bool)
    requires Authenticate(user, keyId, certificate, administrator).Some?
    ensures OpenSession(Authenticate(user, keyId, certificate, administrator).value).nodeId != "" <==> user == PEER_USER
  {
  }

  /**
   What a login grants: a peer is known by the id of its key and may forward nothing for itself;
   a user gets what the certificate says, and never passes for a peer.
   */
  lemma LoginGrants(user: string, keyId: string, certificate: Extensions, administrator: bool)
    ensures var granted := Authenticate(user, keyId, certificate, administrator);
            && (granted.None? <==> user == PEER_USER && keyId == "")
            && (granted.Some? ==>
                  var session := OpenSession(granted.value);
                  && session.nodeId == (if user == PEER_USER then keyId else "")
                  && (session.permitPortForwarding <==>
                      user != PEER_USER && "permit-port-forwarding" in certificate)
                  && ("administrator" in granted.value <==>
                      user != PEER_USER && (administrator || "administrator" in certificate)))
  {
    if user == PEER_USER && keyId != "" {
      assert Authenticate(user, keyId, certificate, administrator) == Some(map["peer" := "", "identity" := keyId]);
    }
  }

  /** Who handed the request to a node. */
  datatype Inbound = FromSession(session: Session) | FromProxy

  datatype Refusal = Undecodable | PermissionDenied | NotFound | PeerUnreachable

  /** Local delivery: the connection and the host it registered the service under. */
  datatype Service = Service(connection: nat, host: Bytes)

  /** The live connection to a peer node, authenticated there by this key id. */
  datatype Link = Link(node: nat, keyId: string)

  /** What one node's lookups answer at the moment they are made. */
  datatype Tables = Tables(local: (Bytes, Uint32) -> Option<Service>, remote: Bytes -> Option<Link>, postgres: bool)

  datatype Request =
    | Arrived(node: nat, inbound: Inbound, payload: Bytes, hops: nat)
    | Delivered(node: nat, connection: nat, data: TunnelData, hops: nat)
    | Bridged(node: nat, hops: nat)
    | Refused(node: nat, reason: Refusal, hops: nat)

  const POSTGRES_HOST: Bytes := [112, 111, 115, 116, 103, 114, 101, 115]
  const POSTGRES_PORT: Uint32 := 5432

  predicate IsPeer(inbound: Inbound) {
    inbound.FromSession? && inbound.session.nodeId != ""
  }

  predicate IsPostgres(data: TunnelData) {
    data.host == POSTGRES_HOST && data.port == POSTGRES_PORT
  }

  /** Hands the original request to the node the user is on. */
  function Forward(link: Link, from: nat, data: TunnelData, hops: nat): Request {
    var extensions := Authenticate(PEER_USER, link.keyId, map[], false);
    if extensions.None? then Refused(from, PeerUnreachable, hops)
    else Arrived(link.node, FromSession(OpenSession(extensions.value)), Marshal(data), hops + 1)
  }

  /** What the node does with a request it can decode and may serve. */
  function Dispatch(tables: Tables, node: nat, inbound: Inbound, data: TunnelData, hops: nat): Request {
    var service := tables.local(data.host, data.port);
    if service.Some? then Delivered(node, service.value.connection, data.(host := service.value.host), hops)
    else if IsPeer(inbound) || tables.remote(data.host).None? then Refused(node, NotFound, hops)
    else Forward(tables.remote(data.host).value, node, data, hops)
  }

  /** One node's handling of a request; a request that has ended stays as it is. */
  function Handle(tables: Tables, request: Request): Request {
    if !request.Arrived? then request
    else
      var Arrived(node, inbound, payload, hops) := request;
      var decoded := Unmarshal(payload);
      if decoded.Err? then Refused(node, Undecodable, hops)
      else
        var data := decoded.value;
        if IsPeer(inbound) && IsPostgres(data) then
          if tables.postgres then Bridged(node, hops) else Refused(node, PermissionDenied, hops)
        else if inbound.FromSession? && !inbound.session.permitPortForwarding && !IsPeer(inbound) then
          Refused(node, PermissionDenied, hops)
        else
          Dispatch(tables, node, inbound, data, hops)
  }

  /** The request after each node in turn has handled it, against its tables of that moment. */
  function Travel(tables: seq<Tables>, request: Request): Request {
    if tables == [] then request else Travel(tables[1..], Handle(tables[0], request))
  }

  /** A request that comes over a peer link ends where it is. */
  lemma PeerRequestEnds(tables: Tables, request: Request)
    requires request.Arrived? ==> IsPeer(request.inbound)
    ensures !Handle(tables, request).Arrived? && Handle(tables, request).hops == request.hops
  {
  }

  /** A request that a user or a proxy brought is forwarded once at most, with the same content. */
  lemma FirstStep(tables: Tables, request: Request)
    requires request.Arrived? && !IsPeer(request.inbound)
    ensures var next := Handle(tables, request);
            && next.hops <= request.hops + 1
            && (!next.Arrived? ==> next.hops == request.hops && !next.Bridged?)
            && (next.Arrived? ==>
                  && IsPeer(next.inbound) && next.hops == request.hops + 1
                  && next.payload == request.payload && Unmarshal(next.payload) == Unmarshal(request.payload))
  {
    if Unmarshal(request.payload).Ok? {
      UnmarshalledIsMarshalled(request.payload);
      FirstDispatch(tables, request.node, request.inbound, Unmarshal(request.payload).value, request.hops);
    }
  }

  lemma FirstDispatch(tables: Tables, node: nat, inbound: Inbound, data: TunnelData, hops: nat)
    requires !IsPeer(inbound)
    ensures var next := Dispatch(tables, node, inbound, data, hops);
            && !next.Bridged?
            && (!next.Arrived? ==> next.hops == hops)
            && (next.Arrived? ==> IsPeer(next.inbound) && next.hops == hops + 1 && next.payload == Marshal(data))
  {
  }

  lemma {:induction false} EndedStays(tables: seq<Tables>, request: Request)
    requires !request.Arrived?
    ensures Travel(tables, request) == request
  {
    if tables != [] {
      EndedStays(tables[1..], request);
    }
  }

  /** Users need the permission for port forwarding; the proxy serves whoever may use it. */
  predicate Permitted(inbound: Inbound) {
    inbound.FromSession? ==> inbound.session.permitPortForwarding
  }

  /** The request is well-formed, and its sender may have it served. */
  predicate Admitted(request: Request)
    requires request.Arrived?
  {
    Unmarshal(request.payload).Ok? && Permitted(request.inbound)
  }

  function ServiceAt(tables: Tables, request: Request): Option<Service>
    requires request.Arrived? && Unmarshal(request.payload).Ok?
  {
    var data := Unmarshal(request.payload).value;
    tables.local(data.host, data.port)
  }

  function LinkAt(tables: Tables, request: Request): Option<Link>
    requires request.Arrived? && Unmarshal(request.payload).Ok?
  {
    tables.remote(Unmarshal(request.payload).value.host)
  }

  /** Nothing serves the request here, and a peer that can be talked to is said to. */
  predicate Leaves(tables: Tables, request: Request)
    requires request.Arrived?
  {
    && Admitted(request) && ServiceAt(tables, request).None?
    && LinkAt(tables, request).Some? && LinkAt(tables, request).value.keyId != ""
  }

  predicate WantsPostgres(request: Request)
    requires request.Arrived?
  {
    Unmarshal(request.payload).Ok? && IsPostgres(Unmarshal(request.payload).value)
  }

  /** What a node makes of a request of a user or a proxy, end by end. */
  lemma FirstEndsExactly(tables: Tables, request: Request)
    requires request.Arrived? && !IsPeer(request.inbound) && request.hops == 0
    ensures var next := Handle(tables, request);
            && (next == Refused(request.node, Undecodable, 0) <==> Unmarshal(request.payload).Err?)
            && (next == Refused(request.node, PermissionDenied, 0) <==>
                Unmarshal(request.payload).Ok? && !Permitted(request.inbound))
            && (next.Delivered? <==> Admitted(request) && ServiceAt(tables, request).Some?)
            && (next == Refused(request.node, NotFound, 0) <==>
                Admitted(request) && ServiceAt(tables, request).None? && LinkAt(tables, request).None?)
            && (next == Refused(request.node, PeerUnreachable, 0) <==>
                && Admitted(request) && ServiceAt(tables, request).None?
                && LinkAt(tables, request).Some? && LinkAt(tables, request).value.keyId == "")
            && (next.Arrived? <==> Leaves(tables, request))
            && (next.Arrived? ==> next.node == LinkAt(tables, request).value.node)
  {
    FirstStep(tables, request);
  }

  /** What a node makes of a request of a peer: its permissions do not matter, and it has the database bridge. */
  lemma PeerEndsExactly(tables: Tables, request: Request)
    requires request.Arrived? && IsPeer(request.inbound)
    ensures var last := Handle(tables, request);
            var decoded := Unmarshal(request.payload);
            && (last == Refused(request.node, Undecodable, request.hops) <==> decoded.Err?)
            && (last == Bridged(request.node, request.hops) <==> WantsPostgres(request) && tables.postgres)
            && (last == Refused(request.node, PermissionDenied, request.hops) <==>
                WantsPostgres(request) && !tables.postgres)
            && (last.Delivered? <==> decoded.Ok? && !WantsPostgres(request) && ServiceAt(tables, request).Some?)
            && (last == Refused(request.node, NotFound, request.hops) <==>
                decoded.Ok? && !WantsPostgres(request) && ServiceAt(tables, request).None?)
  {
  }

  lemma TwoNodes(tables: seq<Tables>, request: Request)
    requires request.Arrived? && !IsPeer(request.inbound) && request.hops == 0 && |tables| >= 2
    ensures var next := Handle(tables[0], request);
            Travel(tables, request) == if next.Arrived? then Handle(tables[1], next) else next
  {
    FirstStep(tables[0], request);
    var next := Handle(tables[0], request);
    assert tables[1..][0] == tables[1] && tables[1..][1..] == tables[2..];
    if next.Arrived? {
      PeerRequestEnds(tables[1], next);
      EndedStays(tables[2..], Handle(tables[1], next));
    } else {
      EndedStays(tables[1..], next);
    }
  }

  /**
   A request of a user or a proxy is delivered exactly if it is well-formed, its sender may have
   it served, and the first node knows the service or sends it to one that does; the name of a
   database bridge is never a service of the second node. Without the permission it is refused
   where it is, whatever it asks for.
   */
  lemma DeliveredExactly(tables: seq<Tables>, request: Request)
    requires request.Arrived? && !IsPeer(request.inbound) && request.hops == 0 && |tables| >= 2
    ensures var last := Travel(tables, request);
            && (last.Delivered? && last.hops == 0 <==> Admitted(request) && ServiceAt(tables[0], request).Some?)
            && (last.Delivered? && last.hops == 1 <==>
                Leaves(tables[0], request) && !WantsPostgres(request) && ServiceAt(tables[1], request).Some?)
            && (last.Delivered? && last.hops == 0 ==> last.node == request.node)
            && (last.Delivered? && last.hops == 1 ==> last.node == LinkAt(tables[0], request).value.node)
            && (last.Delivered? ==> last.hops <= 1)
            && (last == Refused(request.node, PermissionDenied, 0) <==>
                Unmarshal(request.payload).Ok? && !Permitted(request.inbound))
  {
    FirstStep(tables[0], request);
    TwoNodes(tables, request);
    FirstEndsExactly(tables[0], request);
    var next := Handle(tables[0], request);
    if next.Arrived? {
      PeerEndsExactly(tables[1], next);
    }
  }

  /** The other ends of a request of a user or a proxy: each of its refusals, and the database bridge of a peer. */
  lemma EndsExactly(tables: seq<Tables>, request: Request)
    requires request.Arrived? && !IsPeer(request.inbound) && request.hops == 0 && |tables| >= 2
    ensures var last := Travel(tables, request);
            && (last == Refused(request.node, Undecodable, 0) <==> Unmarshal(request.payload).Err?)
            && (last == Refused(request.node, NotFound, 0) <==>
                Admitted(request) && ServiceAt(tables[0], request).None? && LinkAt(tables[0], request).None?)
            && (last == Refused(request.node, PeerUnreachable, 0) <==>
                && Admitted(request) && ServiceAt(tables[0], request).None?
                && LinkAt(tables[0], request).Some? && LinkAt(tables[0], request).value.keyId == "")
            && (last.hops == 1 <==> Leaves(tables[0], request))
            && (last.hops == 1 ==>
                  var there := LinkAt(tables[0], request).value.node;
                  && (last == Bridged(there, 1) <==> WantsPostgres(request) && tables[1].postgres)
                  && (last == Refused(there, PermissionDenied, 1) <==> WantsPostgres(request) && !tables[1].postgres)
                  && (last == Refused(there, NotFound, 1) <==>
                      !WantsPostgres(request) && ServiceAt(tables[1], request).None?))
            && (last.Bridged? <==> Leaves(tables[0], request) && WantsPostgres(request) && tables[1].postgres)
  {
    FirstStep(tables[0], request);
    TwoNodes(tables, request);
    FirstEndsExactly(tables[0], request);
    var next := Handle(tables[0], request);
    if next.Arrived? {
      PeerEndsExactly(tables[1], next);
    }
  }

  /**
   Every request of a user or a proxy crosses at most one peer link, and after two nodes it
   has ended: at the connection that the node where it ended finds for the requested host and
   port, with the requested port and origin; at the peer's database bridge; or refused.
   */
  lemma OneHop(tables: seq<Tables>, request: Request)
    requires request.Arrived? && !IsPeer(request.inbound) && request.hops == 0
    ensures var last := Travel(tables, request);
            && last.hops <= 1
            && (|tables| >= 2 ==> !last.Arrived?)
            && (last.Arrived? ==> last.payload == request.payload)
            && (last.Delivered? ==>
                  && Unmarshal(request.payload).Ok? && last.hops < |tables|
                  && var sent := Unmarshal(request.payload).value;
                     && last.data == sent.(host := last.data.host)
                     && tables[last.hops].local(sent.host, sent.port) == Some(Service(last.connection, last.data.host)))
            && (last.Bridged? ==>
                last.hops == 1 && Unmarshal(request.payload).Ok? && IsPostgres(Unmarshal(request.payload).value))
            && (|tables| >= 2 ==>
                  (last.Delivered? <==>
                    || (Admitted(request) && ServiceAt(tables[0], request).Some?)
                    || (Leaves(tables[0], request) && !WantsPostgres(request)
                        && ServiceAt(tables[1], request).Some?)))
  {
    if |tables| >= 2 {
      DeliveredExactly(tables, request);
    }
    if tables != [] {
      FirstStep(tables[0], request);
      var next := Handle(tables[0], request);
      if next.Arrived? && |tables| >= 2 {
        PeerRequestEnds(tables[1], next);
        EndedStays(tables[2..], Handle(tables[1], next));
        assert tables[1..][0] == tables[1] && tables[1..][1..] == tables[2..];
      } else if !next.Arrived? {
        EndedStays(tables[1..], next);
      } else {
        assert tables[1..] == [];
      }
    }
  }

  /**
   So a user may end up at the database of a peer: its own node knows no such service and takes
   the name for a user's.
   */
  lemma UserCanBeBridged(data: TunnelData) returns (tables: seq<Tables>, request: Request)
    requires IsPostgres(data) && Decodable(data)
    ensures request.Arrived? && request.inbound == FromSession(Session("", true)) && request.payload == Marshal(data)
    ensures Travel(tables, request) == Bridged(1, 1)
  {
    UnmarshalMarshalled(data);
    var here := Tables((_, _) => None, _ => Some(Link(1, "key")), false);
    var there := Tables((_, _) => None, _ => None, true);
    tables, request := [here, there], Arrived(0, FromSession(Session("", true)), Marshal(data), 0);
    assert Leaves(here, request);
    EndsExactly(tables, request);
  }

  /** A proxy request starts from data instead of a payload; the same node would have decoded it from its encoding. */
  lemma ProxyRequest(tables: Tables, node: nat, data: TunnelData)
    requires Decodable(data)
    ensures Handle(tables, Arrived(node, FromProxy, Marshal(data), 0)) == Dispatch(tables, node, FromProxy, data, 0)
  {
    UnmarshalMarshalled(data);
  }
}
