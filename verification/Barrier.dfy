/** What every interleaving of a gateway's threads and of its Close calls keeps. */
module Barrier {
  import opened Common
  import opened Peers
  import opened Shutdown

  /** The wait group counts exactly the live threads, and thread names are not reused. */
  ghost predicate Counted(g: Gateway) {
    && g.tokens == |g.threads|
    && (forall t | t in g.threads :: t < g.spawned)
    && (forall p | p in g.objects :: p < g.spawned)
  }

  predicate HasPeer(dial: Dial) {
    !dial.Dialing? && !dial.Finished?
  }

  /** A thread past its dial owns a peer of the node it dialed. */
  ghost predicate Owning(g: Gateway) {
    forall t | t in g.threads && g.threads[t].Connect? && HasPeer(g.threads[t].dial) ::
      t in g.objects && g.objects[t].nodeId == g.threads[t].nodeId
  }

  predicate Serving(dial: Dial) {
    dial.Added? || dial.Waiting? || dial.Unwatched? || dial.Disconnected?
  }

  /** A peer in the table is filed under its own node, and the live thread that dialed it has yet to remove it. */
  ghost predicate Filed(g: Gateway) {
    forall id | id in g.peers ::
      && g.peers[id] in g.threads && g.threads[g.peers[id]].Connect?
      && g.threads[g.peers[id]].nodeId == id && Serving(g.threads[g.peers[id]].dial)
  }

  /** A thread waiting for an open peer has a watcher that will close it. */
  ghost predicate Watched(g: Gateway) {
    forall t | t in g.threads && g.threads[t].Connect? && g.threads[t].dial.Waiting? ::
      t in g.objects && (g.objects[t].closed || Watches(g, g.threads[t].dial.watcher, t))
  }

  predicate Watches(g: Gateway, w: nat, t: nat) {
    w in g.threads && g.threads[w] == Watch(t, false)
  }

  ghost predicate Core(g: Gateway) {
    Counted(g) && Owning(g) && Filed(g) && Watched(g)
  }

  /** What a thread may become without breaking what others rely on. */
  ghost predicate MayBecome(g: Gateway, t: nat, thread: Thread)
    requires t in g.threads
  {
    && thread.Watch? == g.threads[t].Watch?
    && (thread.Connect? && HasPeer(thread.dial) ==> t in g.objects && g.objects[t].nodeId == thread.nodeId)
    && (thread.Connect? && thread.dial.Waiting? ==>
        t in g.objects && (g.objects[t].closed || Watches(g, thread.dial.watcher, t)))
    && (forall id | id in g.peers && g.peers[id] == t :: thread.Connect? && thread.nodeId == id && Serving(thread.dial))
  }

  /** Nobody relies on a watcher that has fired or whose connection is over. */
  ghost predicate Dispensable(g: Gateway, t: nat)
    requires t in g.threads
  {
    g.threads[t].Watch? && !g.threads[t].fired ==>
      var p := g.threads[t].peer;
      Unneeded(g, p) || (p in g.objects && g.objects[p].closed)
  }

  lemma MovedKeepsCore(g: Gateway, t: nat, thread: Thread)
    requires Core(g) && t in g.threads && MayBecome(g, t, thread) && Dispensable(g, t)
    ensures Core(Moved(g, t, thread))
  {
  }

  lemma StartedKeepsCore(g: Gateway, thread: Thread)
    requires Core(g) && (thread.Connect? ==> thread.dial.Dialing?)
    ensures Core(Started(g, thread))
  {
    assert g.spawned !in g.threads;
  }

  lemma LeftKeepsCore(g: Gateway, t: nat)
    requires Core(g) && t in g.threads && Dispensable(g, t) && (g.threads[t].Connect? ==> g.threads[t].dial.Finished?)
    ensures Core(Left(g, t))
  {
  }

  lemma ShutKeepsCore(g: Gateway, peer: nat)
    requires Core(g)
    ensures Core(Shut(g, peer))
  {
  }

  lemma RemovedKeepsCore(g: Gateway, peer: nat)
    requires Core(g)
    ensures Core(Removed(g, peer))
  {
  }

  lemma DialedKeepsCore(g: Gateway, t: nat, nodeId: string)
    requires Core(g) && t in g.threads && g.threads[t] == Connect(nodeId, Dialing)
    ensures Core(g.(objects := g.objects[t := PeerObject(nodeId, false)]))
  {
  }

  lemma FiledKeepsCore(g: Gateway, t: nat)
    requires Core(g) && t in g.threads && g.threads[t].Connect? && g.threads[t].dial.Added?
    ensures Core(g.(peers := WithPeer(g.peers, g.threads[t].nodeId, t)))
  {
  }

  lemma LoopMoves(g: Gateway, t: nat, loop: Loop)
    requires Core(g) && t in g.threads && g.threads[t].PeerLoop?
    ensures Core(Moved(g, t, PeerLoop(loop)))
  {
    MovedKeepsCore(g, t, PeerLoop(loop));
  }

  /** A connection's thread keeps its peer, and keeps serving while its peer is in the table. */
  lemma DialMoves(g: Gateway, t: nat, nodeId: string, dial: Dial, next: Dial)
    requires Core(g) && t in g.threads && g.threads[t] == Connect(nodeId, dial)
    requires (HasPeer(next) ==> HasPeer(dial)) && (Serving(dial) ==> Serving(next))
    requires next.Waiting? ==> Watches(g, next.watcher, t)
    ensures Core(Moved(g, t, Connect(nodeId, next)))
  {
    MovedKeepsCore(g, t, Connect(nodeId, next));
  }

  lemma DialSucceeds(g: Gateway, t: nat, nodeId: string)
    requires Core(g) && t in g.threads && g.threads[t] == Connect(nodeId, Dialing)
    ensures Core(Moved(g.(objects := g.objects[t := PeerObject(nodeId, false)]), t, Connect(nodeId, Dialed)))
  {
    DialedKeepsCore(g, t, nodeId);
    MovedKeepsCore(g.(objects := g.objects[t := PeerObject(nodeId, false)]), t, Connect(nodeId, Dialed));
  }

  lemma Joins(g: Gateway, t: nat, nodeId: string)
    requires Core(g) && t in g.threads && g.threads[t] == Connect(nodeId, Dialed) && nodeId !in g.peers
    ensures Core(Moved(g.(peers := g.peers[nodeId := t]), t, Connect(nodeId, Added)))
  {
    DialMoves(g, t, nodeId, Dialed, Added);
    FiledKeepsCore(Moved(g, t, Connect(nodeId, Added)), t);
  }

  lemma Retires(g: Gateway, t: nat, nodeId: string)
    requires Core(g) && t in g.threads && g.threads[t] == Connect(nodeId, Disconnected)
    ensures Core(Moved(Removed(g, t), t, Connect(nodeId, Finished)))
  {
    RemovedKeepsCore(g, t);
    MovedKeepsCore(Removed(g, t), t, Connect(nodeId, Finished));
  }

  lemma DiscoveryKeepsCore(g: Gateway, t: nat, loop: Loop, step: Step)
    requires Core(g) && t in g.threads && g.threads[t] == PeerLoop(loop) && LoopStep(g, t, loop, step).Some?
    requires step.Tick? || step.Register? || step.Find? || step.Discover?
    ensures Core(LoopStep(g, t, loop, step).value)
  {
    match step
    case Tick(_) => LoopMoves(g, t, Registering);
    case Register(_, ok) => LoopMoves(Written(g, true, ok), t, Discovering(false, None));
    case Find(_, found) => LoopMoves(g, t, Discovering(loop.first, Some(found)));
    case Discover(_) =>
      StartedKeepsCore(g, Connect(loop.unknown.value, Dialing));
      LoopMoves(Started(g, Connect(loop.unknown.value, Dialing)), t, Discovering(loop.first, None));
  }

  lemma PingsKeepCore(g: Gateway, t: nat, loop: Loop, step: Step)
    requires Core(g) && t in g.threads && g.threads[t] == PeerLoop(loop) && LoopStep(g, t, loop, step).Some?
    requires step.Listed? || step.Ping? || step.Evict? || step.Rest?
    ensures Core(LoopStep(g, t, loop, step).value)
  {
    match step
    case Listed(_) => LoopMoves(g, t, if loop.first then Idle else Pinging(g.peers.Values));
    case Ping(_, peer, ok) =>
      if ok {
        LoopMoves(g, t, Pinging(loop.rest - {peer}));
      } else {
        RemovedKeepsCore(g, peer);
        LoopMoves(Removed(g, peer), t, Evicting(peer, loop.rest - {peer}));
      }
    case Evict(_) =>
      ShutKeepsCore(g, loop.peer);
      LoopMoves(Shut(g, loop.peer), t, Pinging(loop.others));
    case Rest(_) => LoopMoves(g, t, Idle);
  }

  lemma ConnectKeepsCore(g: Gateway, t: nat, nodeId: string, dial: Dial, step: Step)
    requires Core(g) && t in g.threads && g.threads[t] == Connect(nodeId, dial)
    requires ConnectStep(g, t, nodeId, dial, step).Some?
    ensures Core(ConnectStep(g, t, nodeId, dial, step).value)
  {
    match step
    case DialEnds(_, ok) => if ok { DialSucceeds(g, t, nodeId); } else { DialMoves(g, t, nodeId, dial, Finished); }
    case AddPeer(_) => if nodeId in g.peers { DialMoves(g, t, nodeId, dial, Rejected); } else { Joins(g, t, nodeId); }
    case Reject(_) =>
      ShutKeepsCore(g, t);
      DialMoves(Shut(g, t), t, nodeId, dial, Finished);
    case StartWatch(_) =>
      StartedKeepsCore(g, Watch(t, false));
      DialMoves(Started(g, Watch(t, false)), t, nodeId, dial, Waiting(g.spawned));
    case Unblock(_, _) => DialMoves(g, t, nodeId, dial, Unwatched);
    case Disconnect(_) =>
      ShutKeepsCore(g, t);
      DialMoves(Shut(g, t), t, nodeId, dial, Disconnected);
    case RemovePeer(_) => Retires(g, t, nodeId);
  }

  lemma ThreadKeepsCore(g: Gateway, t: nat, step: Step)
    requires Core(g) && t in g.threads && ThreadStep(g, t, g.threads[t], step).Some?
    ensures Core(ThreadStep(g, t, g.threads[t], step).value)
  {
    if step.Exit? {
      LeftKeepsCore(g, t);
    } else {
      match g.threads[t]
      case PeerLoop(loop) =>
        if step.Tick? || step.Register? || step.Find? || step.Discover? {
          DiscoveryKeepsCore(g, t, loop, step);
        } else {
          PingsKeepCore(g, t, loop, step);
        }
      case Heartbeat(beating) => MovedKeepsCore(g, t, Heartbeat(!beating));
      case Connect(nodeId, dial) => ConnectKeepsCore(g, t, nodeId, dial, step);
      case Watch(peer, _) =>
        ShutKeepsCore(g, peer);
        MovedKeepsCore(Shut(g, peer), t, Watch(peer, true));
    }
  }

  lemma CloserKeepsCore(g: Gateway, step: Step)
    requires Core(g) && CloserStep(g, step).Some?
    ensures Core(CloserStep(g, step).value)
  {
    if step.ClosePeer? {
      ShutKeepsCore(g, step.peer);
    }
  }

  /** Past the wait nothing runs, and a successful last write is the last word. */
  ghost predicate Settled(g: Gateway) {
    forall c | c in g.closers :: g.done && CloserHolds(g, g.closers[c])
  }

  predicate CloserHolds(g: Gateway, closer: Closer) {
    && (closer.Awaited? || closer.Ended? ==> g.threads == map[])
    && (closer == Ended(true) && g.nodeId != "" ==> g.row == Some(false))
  }

  lemma ThreadKeepsSettled(g: Gateway, t: nat, step: Step)
    requires Settled(g) && t in g.threads && ThreadStep(g, t, g.threads[t], step).Some?
    ensures Settled(ThreadStep(g, t, g.threads[t], step).value)
  {
    assert forall c | c in g.closers :: g.closers[c].Signalled? || g.closers[c].Closing?;
  }

  lemma CloserKeepsSettled(g: Gateway, step: Step)
    requires Counted(g) && Settled(g) && CloserStep(g, step).Some?
    ensures Settled(CloserStep(g, step).value)
  {
    if g.tokens == 0 {
      assert g.threads == map[];
    }
  }

  ghost predicate Inv(g: Gateway) {
    Core(g) && Settled(g)
  }

  lemma NextKeepsInv(g: Gateway, step: Step)
    requires Inv(g) && Next(g, step).Some?
    ensures Inv(Next(g, step).value)
  {
    if IsCloserStep(step) {
      CloserKeepsCore(g, step);
      CloserKeepsSettled(g, step);
    } else {
      ThreadKeepsCore(g, step.t, step);
      ThreadKeepsSettled(g, step.t, step);
    }
  }

  lemma {:induction false} RunKeepsInv(nodeId: string, states: seq<Gateway>, steps: seq<Step>, i: nat)
    requires IsRun(states, steps) && states[0] == Opened(nodeId) && i < |states|
    ensures Inv(states[i]) && states[i].nodeId == nodeId
  {
    if i > 0 {
      RunKeepsInv(nodeId, states, steps, i - 1);
      assert Linked(states, steps, i - 1);
      NextKeepsInv(states[i - 1], steps[i - 1]);
    }
  }

  /** In every reachable state a peer in the table bears its own node id and has a live thread, which holds a token. */
  lemma PeersAreLive(nodeId: string, states: seq<Gateway>, steps: seq<Step>, i: nat, id: string)
    requires IsRun(states, steps) && states[0] == Opened(nodeId) && i < |states| && id in states[i].peers
    ensures var g, peer := states[i], states[i].peers[id];
            && peer in g.objects && g.objects[peer].nodeId == id
            && peer in g.threads && g.threads[peer].Connect? && Serving(g.threads[peer].dial)
            && g.tokens == |g.threads| > 0
  {
    RunKeepsInv(nodeId, states, steps, i);
  }

  /** A token is only ever added by a thread that holds one. */
  lemma NoTokenAtZero(g: Gateway, step: Step)
    requires Inv(g) && Next(g, step).Some? && g.tokens == 0
    ensures IsCloserStep(step) && Next(g, step).value.tokens == 0
  {
    assert g.threads.Keys == {};
  }

  predicate PastWait(g: Gateway, c: nat) {
    c in g.closers && (g.closers[c].Awaited? || g.closers[c].Ended?)
  }

  predicate HasWritten(g: Gateway, c: nat) {
    c in g.closers && g.closers[c] == Ended(true)
  }

  lemma NextKeepsPast(g: Gateway, step: Step, c: nat)
    requires Next(g, step).Some?
    ensures PastWait(g, c) ==> PastWait(Next(g, step).value, c)
    ensures HasWritten(g, c) ==> HasWritten(Next(g, step).value, c)
  {
  }

  lemma {:induction false} StaysPast(states: seq<Gateway>, steps: seq<Step>, i: nat, j: nat, c: nat)
    requires IsRun(states, steps) && i <= j < |states|
    ensures PastWait(states[i], c) ==> PastWait(states[j], c)
    ensures HasWritten(states[i], c) ==> HasWritten(states[j], c)
    decreases j
  {
    if i < j {
      StaysPast(states, steps, i, j - 1, c);
      assert Linked(states, steps, j - 1);
      NextKeepsPast(states[j - 1], steps[j - 1], c);
    }
  }

  /**
   The shutdown barrier: once any call of Close is past its wait, no thread runs and the peer
   table is empty, for good; and once its last write has succeeded, the node is offline for good.
   */
  lemma ShutdownBarrier(nodeId: string, states: seq<Gateway>, steps: seq<Step>, i: nat, j: nat, c: nat)
    requires IsRun(states, steps) && states[0] == Opened(nodeId) && i <= j < |states| && PastWait(states[i], c)
    ensures states[j].tokens == 0 && states[j].threads == map[] && states[j].peers == map[]
    ensures HasWritten(states[i], c) && nodeId != "" ==> states[j].row == Some(false)
  {
    RunKeepsInv(nodeId, states, steps, j);
    StaysPast(states, steps, i, j, c);
    var g := states[j];
    assert CloserHolds(g, g.closers[c]);
    assert g.peers.Keys == {};
  }

  /** The steps that take a peer out of the table. */
  predicate TakesOut(step: Step, peer: nat) {
    step == RemovePeer(peer) || (step.Ping? && step.peer == peer && !step.ok)
  }

  /** What may happen to the entry of a node that has a peer. */
  ghost predicate KeptOrTaken(before: map<string, nat>, after: map<string, nat>, step: Step, id: string)
    requires id in before
  {
    (id in after && after[id] == before[id]) || (id !in after && TakesOut(step, before[id]))
  }

  lemma LoopTakesOut(g: Gateway, t: nat, loop: Loop, step: Step, id: string)
    requires id in g.peers && LoopStep(g, t, loop, step).Some?
    ensures KeptOrTaken(g.peers, LoopStep(g, t, loop, step).value.peers, step, id)
  {
    var after := LoopStep(g, t, loop, step).value.peers;
    assert after == g.peers || (step.Ping? && !step.ok && after == Removed(g, step.peer).peers);
  }

  lemma ConnectTakesOut(g: Gateway, t: nat, nodeId: string, dial: Dial, step: Step, id: string)
    requires id in g.peers && ConnectStep(g, t, nodeId, dial, step).Some? && (step.RemovePeer? ==> step.t == t)
    ensures KeptOrTaken(g.peers, ConnectStep(g, t, nodeId, dial, step).value.peers, step, id)
  {
    var after := ConnectStep(g, t, nodeId, dial, step).value.peers;
    assert after == g.peers || (step.AddPeer? && after == WithPeer(g.peers, nodeId, t))
        || (step.RemovePeer? && after == Removed(g, t).peers);
  }

  lemma OnlyItsOwnRemoval(g: Gateway, step: Step, id: string)
    requires Next(g, step).Some? && id in g.peers
    ensures KeptOrTaken(g.peers, Next(g, step).value.peers, step, id)
  {
    if !IsCloserStep(step) && !step.Exit? {
      match g.threads[step.t]
      case PeerLoop(loop) => LoopTakesOut(g, step.t, loop, step, id);
      case Connect(nodeId, dial) => ConnectTakesOut(g, step.t, nodeId, dial, step, id);
      case _ =>
    }
  }

  /** A node's peer is only ever replaced after that very peer has been taken out. */
  lemma {:induction false} ReplacedOnlyAfterRemoval(nodeId: string, states: seq<Gateway>, steps: seq<Step>, i: nat,
      j: nat, id: string)
    returns (k: nat)
    requires IsRun(states, steps) && states[0] == Opened(nodeId) && i <= j < |states| && id in states[i].peers
    requires id !in states[j].peers || states[j].peers[id] != states[i].peers[id]
    ensures i <= k < j && TakesOut(steps[k], states[i].peers[id])
    decreases j - i
  {
    assert Linked(states, steps, i);
    RunKeepsInv(nodeId, states, steps, i);
    OnlyItsOwnRemoval(states[i], steps[i], id);
    if TakesOut(steps[i], states[i].peers[id]) {
      k := i;
    } else {
      k := ReplacedOnlyAfterRemoval(nodeId, states, steps, i + 1, j, id);
    }
  }

  /** The row tells whether the gateway is up: offline only by a Close that says so, and absent without a node id. */
  ghost predicate RowIsCurrent(g: Gateway) {
    if g.nodeId == "" then g.row == None
    else g.row.Some? && (g.row == Some(false) ==> exists c :: HasWritten(g, c))
  }

  predicate IsForeign(self: string, thread: Thread) {
    match thread
    case PeerLoop(loop) => loop.Discovering? && loop.unknown.Some? ==> loop.unknown.value != self
    case Connect(nodeId, _) => nodeId != self
    case _ => true
  }

  /** No thread is about to dial, or has dialed, its own node. */
  ghost predicate OnlyOthers(g: Gateway) {
    forall t | t in g.threads :: IsForeign(g.nodeId, g.threads[t])
  }

  /** A thread writes the row only to say that the gateway is up. */
  lemma ThreadWritesOnline(g: Gateway, t: nat, thread: Thread, step: Step)
    requires ThreadStep(g, t, thread, step).Some?
    ensures var row := ThreadStep(g, t, thread, step).value.row;
            row == g.row || (g.nodeId != "" && row == Some(true))
  {
  }

  lemma NextKeepsRow(g: Gateway, step: Step)
    requires RowIsCurrent(g) && Next(g, step).Some?
    ensures RowIsCurrent(Next(g, step).value)
  {
    var h := Next(g, step).value;
    if c :| HasWritten(g, c) {
      NextKeepsPast(g, step, c);
    }
    if !IsCloserStep(step) {
      ThreadWritesOnline(g, step.t, g.threads[step.t], step);
    } else if step.MarkOffline? && step.ok {
      assert HasWritten(h, step.c);
    }
  }

  lemma LoopKeepsOthers(g: Gateway, t: nat, loop: Loop, step: Step)
    requires OnlyOthers(g) && t in g.threads && g.threads[t] == PeerLoop(loop) && LoopStep(g, t, loop, step).Some?
    ensures OnlyOthers(LoopStep(g, t, loop, step).value)
  {
    var h := LoopStep(g, t, loop, step).value;
    assert IsForeign(g.nodeId, g.threads[t]);
    assert IsForeign(h.nodeId, h.threads[t]);
  }

  lemma ConnectKeepsOthers(g: Gateway, t: nat, nodeId: string, dial: Dial, step: Step)
    requires OnlyOthers(g) && t in g.threads && g.threads[t] == Connect(nodeId, dial)
    requires ConnectStep(g, t, nodeId, dial, step).Some?
    ensures OnlyOthers(ConnectStep(g, t, nodeId, dial, step).value)
  {
    assert IsForeign(g.nodeId, g.threads[t]);
  }

  lemma NextKeepsOthers(g: Gateway, step: Step)
    requires OnlyOthers(g) && Next(g, step).Some?
    ensures OnlyOthers(Next(g, step).value)
  {
    if !IsCloserStep(step) && !step.Exit? {
      match g.threads[step.t]
      case PeerLoop(loop) => LoopKeepsOthers(g, step.t, loop, step);
      case Connect(nodeId, dial) => ConnectKeepsOthers(g, step.t, nodeId, dial, step);
      case _ =>
    }
  }

  lemma {:induction false} RunKeepsRow(nodeId: string, states: seq<Gateway>, steps: seq<Step>, i: nat)
    requires IsRun(states, steps) && states[0] == Opened(nodeId) && i < |states|
    ensures RowIsCurrent(states[i]) && OnlyOthers(states[i])
  {
    if i > 0 {
      RunKeepsRow(nodeId, states, steps, i - 1);
      assert Linked(states, steps, i - 1);
      NextKeepsRow(states[i - 1], steps[i - 1]);
      NextKeepsOthers(states[i - 1], steps[i - 1]);
    }
  }

  /**
   In every reachable state a gateway with a node id is online in the database if and only if no
   Close has written the opposite; one without has no row.
   */
  lemma OnlineUntilClosed(nodeId: string, states: seq<Gateway>, steps: seq<Step>, i: nat)
    requires IsRun(states, steps) && states[0] == Opened(nodeId) && i < |states|
    ensures nodeId == "" ==> states[i].row == None
    ensures nodeId != "" ==>
              states[i].row.Some? && (states[i].row == Some(false) <==> exists c :: HasWritten(states[i], c))
  {
    RunKeepsRow(nodeId, states, steps, i);
    RunKeepsInv(nodeId, states, steps, i);
    if c :| HasWritten(states[i], c) {
      assert CloserHolds(states[i], states[i].closers[c]);
    }
  }

  /** In no reachable state has a gateway dialed itself, and it is never its own peer. */
  lemma NeverItsOwnPeer(nodeId: string, states: seq<Gateway>, steps: seq<Step>, i: nat)
    requires IsRun(states, steps) && states[0] == Opened(nodeId) && i < |states|
    ensures nodeId !in states[i].peers
    ensures forall t | t in states[i].threads && states[i].threads[t].Connect? ::
              states[i].threads[t].nodeId != nodeId
  {
    RunKeepsRow(nodeId, states, steps, i);
    RunKeepsInv(nodeId, states, steps, i);
    forall t | t in states[i].threads && states[i].threads[t].Connect?
      ensures states[i].threads[t].nodeId != nodeId
    {
      assert IsForeign(states[i].nodeId, states[i].threads[t]);
    }
  }
}
