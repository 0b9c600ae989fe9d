/**
 The background threads of one gateway and its shutdown. A wait group counts the threads;
 Close sets a flag, closes what it can see, waits for the count to reach zero and marks the
 node offline. Threads may still start threads while that happens.
 */
module Shutdown {
  import opened Common
  import opened Peers

  /** Where the peer loop is: its first discovery has no pings after it, and a node found without a peer is dialed. */
  datatype Loop =
    | Idle
    | Registering
    | Discovering(first: bool, unknown: Option<string>)
    | Pinging(rest: set<nat>)
    | Evicting(peer: nat, others: set<nat>)

  /** Where the thread of one outbound connection is. */
  datatype Dial =
    | Dialing
    | Dialed
    | Rejected
    | Added
    | Waiting(watcher: nat)
    | Unwatched
    | Disconnected
    | Finished

  datatype Thread =
    | PeerLoop(loop: Loop)
    | Heartbeat(beating: bool)
    | Connect(nodeId: string, dial: Dial)
    | Watch(peer: nat, fired: bool)

  /** A peer is named after the thread that dialed it and outlives it. */
  datatype PeerObject = PeerObject(nodeId: string, closed: bool)

  datatype Closer =
    | Signalled
    | Closing(remaining: set<nat>)
    | Awaited
    | Ended(written: bool)

  datatype Gateway = Gateway(
    nodeId: string,
    done: bool,
    tokens: int,
    threads: map<nat, Thread>,
    spawned: nat,
    objects: map<nat, PeerObject>,
    peers: map<string, nat>,
    row: Option<bool>,
    closers: map<nat, Closer>
  )

  datatype Step =
    | Tick(t: nat)
    | Register(t: nat, ok: bool)
    | Find(t: nat, found: string)
    | Discover(t: nat)
    | Listed(t: nat)
    | Ping(t: nat, peer: nat, ok: bool)
    | Evict(t: nat)
    | Rest(t: nat)
    | Beat(t: nat)
    | DialEnds(t: nat, ok: bool)
    | AddPeer(t: nat)
    | Reject(t: nat)
    | StartWatch(t: nat)
    | Unblock(t: nat, lost: bool)
    | Disconnect(t: nat)
    | RemovePeer(t: nat)
    | Fire(t: nat)
    | Exit(t: nat)
    | Close(c: nat)
    | Snapshot(c: nat)
    | ClosePeer(c: nat, peer: nat)
    | Await(c: nat)
    | MarkOffline(c: nat, ok: bool)

  /** The threads of a gateway leave its identity, its done flag and its closers alone. */
  predicate SameClosing(g: Gateway, h: Gateway) {
    h.nodeId == g.nodeId && h.done == g.done && h.closers == g.closers
  }

  function Moved(g: Gateway, t: nat, thread: Thread): (r: Gateway)
    ensures t in g.threads ==> r.threads.Keys == g.threads.Keys && |r.threads| == |g.threads|
    ensures SameClosing(g, r)
  {
    assert t in g.threads ==> g.threads[t := thread].Keys == g.threads.Keys;
    g.(threads := g.threads[t := thread])
  }

  /** Adds a token and starts a thread with it; the count is taken before the thread runs. */
  function Started(g: Gateway, thread: Thread): (r: Gateway)
    ensures g.spawned !in g.threads ==> |r.threads| == |g.threads| + 1
    ensures SameClosing(g, r)
  {
    assert g.threads[g.spawned := thread].Keys == g.threads.Keys + {g.spawned};
    g.(threads := g.threads[g.spawned := thread], spawned := g.spawned + 1, tokens := g.tokens + 1)
  }

  function Left(g: Gateway, t: nat): (r: Gateway)
    ensures t in g.threads ==> |r.threads| == |g.threads| - 1
    ensures SameClosing(g, r)
  {
    assert (g.threads - {t}).Keys == g.threads.Keys - {t};
    g.(threads := g.threads - {t}, tokens := g.tokens - 1)
  }

  function Shut(g: Gateway, peer: nat): (r: Gateway)
    ensures SameClosing(g, r) && r.threads == g.threads
  {
    if peer in g.objects then g.(objects := g.objects[peer := g.objects[peer].(closed := true)]) else g
  }

  function Removed(g: Gateway, peer: nat): (r: Gateway)
    ensures SameClosing(g, r) && r.threads == g.threads
  {
    if peer in g.objects then g.(peers := WithoutPeer(g.peers, g.objects[peer].nodeId, peer)) else g
  }

  /** Registers this node; a gateway without a node id has no row. */
  function Written(g: Gateway, online: bool, ok: bool): (r: Gateway)
    ensures SameClosing(g, r) && r.threads == g.threads
  {
    if ok && g.nodeId != "" then g.(row := Some(online)) else g
  }

  /** The stop signal of a connection's watcher has been given. */
  predicate Unneeded(g: Gateway, peer: nat) {
    !(peer in g.threads && g.threads[peer].Connect? && g.threads[peer].dial.Waiting?)
  }

  /** A thread that can return: only the loops look at the done flag. */
  predicate MayExit(g: Gateway, thread: Thread) {
    match thread
    case PeerLoop(loop) => loop.Idle? && g.done
    case Heartbeat(beating) => !beating && g.done
    case Connect(_, dial) => dial.Finished?
    case Watch(peer, fired) => fired || Unneeded(g, peer)
  }

  function LoopStep(g: Gateway, t: nat, loop: Loop, step: Step): (r: Option<Gateway>)
    ensures r.Some? ==> SameClosing(g, r.value)
    ensures r.Some? ==> r.value.peers == if step.Ping? && !step.ok then Removed(g, step.peer).peers else g.peers
  {
    match step
    case Tick(_) => if loop.Idle? then Some(Moved(g, t, PeerLoop(Registering))) else None
    case Register(_, ok) =>
      if loop.Registering?
      then Some(Moved(Written(g, true, ok), t, PeerLoop(Discovering(false, None))))
      else None
    case Find(_, found) =>
      if loop.Discovering? && found !in g.peers && found != g.nodeId
      then Some(Moved(g, t, PeerLoop(Discovering(loop.first, Some(found)))))
      else None
    case Discover(_) =>
      if loop.Discovering? && loop.unknown.Some?
      then Some(Moved(Started(g, Connect(loop.unknown.value, Dialing)), t, PeerLoop(Discovering(loop.first, None))))
      else None
    case Listed(_) =>
      if loop.Discovering? && loop.unknown.None?
      then Some(Moved(g, t, PeerLoop(if loop.first then Idle else Pinging(g.peers.Values))))
      else None
    case Ping(_, peer, ok) =>
      if !loop.Pinging? || peer !in loop.rest then None
      else if ok then Some(Moved(g, t, PeerLoop(Pinging(loop.rest - {peer}))))
      else Some(Moved(Removed(g, peer), t, PeerLoop(Evicting(peer, loop.rest - {peer}))))
    case Evict(_) => if loop.Evicting? then Some(Moved(Shut(g, loop.peer), t, PeerLoop(Pinging(loop.others)))) else None
    case Rest(_) => if loop == Pinging({}) then Some(Moved(g, t, PeerLoop(Idle))) else None
    case _ => None
  }

  function ConnectStep(g: Gateway, t: nat, nodeId: string, dial: Dial, step: Step): (r: Option<Gateway>)
    ensures r.Some? ==> SameClosing(g, r.value)
    ensures r.Some? && step.AddPeer? ==> r.value.peers == WithPeer(g.peers, nodeId, t)
    ensures r.Some? && step.RemovePeer? ==> r.value.peers == Removed(g, t).peers
    ensures r.Some? && !step.AddPeer? && !step.RemovePeer? ==> r.value.peers == g.peers
  {
    match step
    case DialEnds(_, ok) =>
      if !dial.Dialing? then None
      else if ok then Some(Moved(g.(objects := g.objects[t := PeerObject(nodeId, false)]), t, Connect(nodeId, Dialed)))
      else Some(Moved(g, t, Connect(nodeId, Finished)))
    case AddPeer(_) =>
      if !dial.Dialed? then None
      else Some(Moved(g.(peers := WithPeer(g.peers, nodeId, t)), t,
          Connect(nodeId, if nodeId in g.peers then Rejected else Added)))
    case Reject(_) => if dial.Rejected? then Some(Moved(Shut(g, t), t, Connect(nodeId, Finished))) else None
    case StartWatch(_) =>
      if dial.Added? then Some(Moved(Started(g, Watch(t, false)), t, Connect(nodeId, Waiting(g.spawned)))) else None
    case Unblock(_, lost) =>
      if dial.Waiting? && (lost || (t in g.objects && g.objects[t].closed))
      then Some(Moved(g, t, Connect(nodeId, Unwatched)))
      else None
    case Disconnect(_) => if dial.Unwatched? then Some(Moved(Shut(g, t), t, Connect(nodeId, Disconnected))) else None
    case RemovePeer(_) => if dial.Disconnected? then Some(Moved(Removed(g, t), t, Connect(nodeId, Finished))) else None
    case _ => None
  }

  function ThreadStep(g: Gateway, t: nat, thread: Thread, step: Step): (r: Option<Gateway>)
    ensures r.Some? ==> SameClosing(g, r.value)
  {
    if step.Exit? then
      if MayExit(g, thread) then Some(Left(g, t)) else None
    else
      match thread
      case PeerLoop(loop) => LoopStep(g, t, loop, step)
      case Heartbeat(beating) => if step.Beat? then Some(Moved(g, t, Heartbeat(!beating))) else None
      case Connect(nodeId, dial) => ConnectStep(g, t, nodeId, dial, step)
      case Watch(peer, fired) =>
        if step.Fire? && g.done && !fired then Some(Moved(Shut(g, peer), t, Watch(peer, true))) else None
  }

  /** One of possibly several calls of Close. */
  function CloserStep(g: Gateway, step: Step): Option<Gateway> {
    match step
    case Close(c) => if c in g.closers then None else Some(g.(done := true, closers := g.closers[c := Signalled]))
    case Snapshot(c) =>
      if c in g.closers && g.closers[c].Signalled?
      then Some(g.(closers := g.closers[c := Closing(g.peers.Values)]))
      else None
    case ClosePeer(c, peer) =>
      if c in g.closers && g.closers[c].Closing? && peer in g.closers[c].remaining
      then Some(Shut(g, peer).(closers := g.closers[c := Closing(g.closers[c].remaining - {peer})]))
      else None
    case Await(c) =>
      if c in g.closers && g.closers[c] == Closing({}) && g.tokens == 0
      then Some(g.(closers := g.closers[c := Awaited]))
      else None
    case MarkOffline(c, ok) =>
      if c in g.closers && g.closers[c].Awaited?
      then Some(Written(g, false, ok).(closers := g.closers[c := Ended(ok)]))
      else None
    case _ => None
  }

  predicate IsCloserStep(step: Step) {
    step.Close? || step.Snapshot? || step.ClosePeer? || step.Await? || step.MarkOffline?
  }

  function Next(g: Gateway, step: Step): Option<Gateway> {
    if IsCloserStep(step) then CloserStep(g, step)
    else if step.t in g.threads then ThreadStep(g, step.t, g.threads[step.t], step)
    else None
  }

  /** A gateway as Open returns it; without a node id there is no peer loop. */
  function Opened(nodeId: string): Gateway {
    var beat := Heartbeat(false);
    if nodeId == "" then Gateway(nodeId, false, 1, map[0 := beat], 1, map[], map[], None, map[])
    else
      var threads := map[0 := PeerLoop(Discovering(true, None)), 1 := beat];
      Gateway(nodeId, false, 2, threads, 2, map[], map[], Some(true), map[])
  }

  ghost predicate Linked(states: seq<Gateway>, steps: seq<Step>, i: nat)
    requires i < |steps| && |states| == |steps| + 1
  {
    Next(states[i], steps[i]) == Some(states[i + 1])
  }

  ghost predicate IsRun(states: seq<Gateway>, steps: seq<Step>) {
    |states| == |steps| + 1 && forall i | 0 <= i < |steps| :: Linked(states, steps, i)
  }
}
