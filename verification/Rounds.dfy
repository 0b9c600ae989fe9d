/**
 What the background threads of a gateway do while it is up, over any run: they keep running until
 it is closed, dial only nodes that were found without a peer, and ping every peer they know.
 */
module Rounds {
  import opened Common
  import opened Peers
  import opened Shutdown
  import opened Barrier
  import opened Closure

  /** The step is another thread's, or a closer's. */
  predicate Elsewhere(step: Step, t: nat) {
    IsCloserStep(step) || step.t != t
  }

  lemma OthersStay(g: Gateway, step: Step, t: nat)
    requires Counted(g) && Next(g, step).Some? && t in g.threads && Elsewhere(step, t)
    ensures t in Next(g, step).value.threads && Next(g, step).value.threads[t] == g.threads[t]
  {
    if !IsCloserStep(step) {
      if step.Exit? || g.threads[step.t].Heartbeat? || g.threads[step.t].Watch? {
        OthersOnlyClose(g, step.t, step);
      } else {
        match g.threads[step.t]
        case PeerLoop(loop) => LoopLeavesThreads(g, step.t, loop, step);
        case Connect(nodeId, dial) => ConnectLeavesThreads(g, step.t, nodeId, dial, step);
      }
    }
  }

  lemma RunIsCounted(nodeId: string, states: seq<Gateway>, steps: seq<Step>, i: nat)
    requires IsRun(states, steps) && states[0] == Opened(nodeId) && i < |states|
    ensures Counted(states[i]) && states[i].nodeId == nodeId
  {
    RunKeepsInv(nodeId, states, steps, i);
  }

  predicate IsStarting(thread: Thread) {
    (thread.Connect? && thread.dial.Dialing?) || (thread.Watch? && !thread.fired)
  }

  /** Threads that a step starts dial or watch. */
  lemma NewThreads(g: Gateway, step: Step, t: nat)
    requires Next(g, step).Some? && t !in g.threads && t in Next(g, step).value.threads
    ensures t == g.spawned && IsStarting(Next(g, step).value.threads[t])
  {
    match g.threads[step.t]
    case PeerLoop(loop) => assert LoopStep(g, step.t, loop, step).Some?;
    case Connect(nodeId, dial) => assert ConnectStep(g, step.t, nodeId, dial, step).Some?;
    case _ =>
  }

  // Until Close.

  /** The loops that a gateway is opened with. */
  predicate LoopsRun(g: Gateway) {
    && (g.nodeId == "" ==> 0 in g.threads && g.threads[0].Heartbeat?)
    && (g.nodeId != "" ==> 0 in g.threads && g.threads[0].PeerLoop? && 1 in g.threads && g.threads[1].Heartbeat?)
  }

  predicate NoneFired(g: Gateway) {
    forall t | t in g.threads && g.threads[t].Watch? :: !g.threads[t].fired
  }

  predicate UpUnlessDone(g: Gateway) {
    if g.done then g.closers != map[] else g.closers == map[] && LoopsRun(g) && NoneFired(g)
  }

  lemma LoopStaysUp(g: Gateway, step: Step, t: nat)
    requires Counted(g) && !g.done && Next(g, step).Some? && t in g.threads
    requires g.threads[t].PeerLoop? || g.threads[t].Heartbeat?
    ensures var h := Next(g, step).value;
            && t in h.threads && h.threads[t].PeerLoop? == g.threads[t].PeerLoop?
            && h.threads[t].Heartbeat? == g.threads[t].Heartbeat?
  {
    if Elsewhere(step, t) {
      OthersStay(g, step, t);
    }
  }

  lemma WatchStaysUnfired(g: Gateway, step: Step, t: nat)
    requires Counted(g) && !g.done && NoneFired(g) && Next(g, step).Some?
    requires t in Next(g, step).value.threads && Next(g, step).value.threads[t].Watch?
    ensures !Next(g, step).value.threads[t].fired
  {
    if t !in g.threads {
      NewThreads(g, step, t);
    } else if Elsewhere(step, t) {
      OthersStay(g, step, t);
    }
  }

  lemma StepKeepsUp(g: Gateway, step: Step)
    requires Counted(g) && UpUnlessDone(g) && Next(g, step).Some?
    ensures UpUnlessDone(Next(g, step).value)
  {
    var h := Next(g, step).value;
    if !IsCloserStep(step) {
      assert SameClosing(g, h);
    }
    if !h.done {
      LoopStaysUp(g, step, 0);
      if g.nodeId != "" {
        LoopStaysUp(g, step, 1);
      }
      forall t | t in h.threads && h.threads[t].Watch? ensures !h.threads[t].fired {
        WatchStaysUnfired(g, step, t);
      }
    }
  }

  /**
   In every reachable state of a gateway that nobody has closed, its heartbeat runs, its peer loop
   does if it has a node id, and no watcher has closed a peer.
   */
  lemma {:induction false} UpUntilClosed(nodeId: string, states: seq<Gateway>, steps: seq<Step>, i: nat)
    requires IsRun(states, steps) && states[0] == Opened(nodeId) && i < |states|
    ensures UpUnlessDone(states[i])
  {
    if i > 0 {
      UpUntilClosed(nodeId, states, steps, i - 1);
      RunIsCounted(nodeId, states, steps, i - 1);
      assert Linked(states, steps, i - 1);
      StepKeepsUp(states[i - 1], steps[i - 1]);
    }
  }

  // Dialing.

  predicate HasFound(g: Gateway, t: nat, found: string) {
    && t in g.threads && g.threads[t].PeerLoop?
    && g.threads[t].loop.Discovering? && g.threads[t].loop.unknown == Some(found)
  }

  lemma LoopFinds(g: Gateway, t: nat, loop: Loop, step: Step, found: string)
    requires LoopStep(g, t, loop, step).Some? && HasFound(LoopStep(g, t, loop, step).value, t, found)
    ensures step.Find? && step.found == found && found !in g.peers && found != g.nodeId
  {
  }

  lemma FoundByFinding(g: Gateway, step: Step, t: nat, found: string)
    requires Counted(g) && Next(g, step).Some? && HasFound(Next(g, step).value, t, found)
    ensures HasFound(g, t, found) || (step == Find(t, found) && found !in g.peers && found != g.nodeId)
  {
    if t !in g.threads {
      NewThreads(g, step, t);
    } else if Elsewhere(step, t) {
      OthersStay(g, step, t);
    } else if g.threads[t].PeerLoop? && !step.Exit? {
      LoopFinds(g, t, g.threads[t].loop, step, found);
    }
  }

  /** Whatever the peer loop dials it has found before, when that node had no peer and was not the gateway itself. */
  lemma {:induction false} DialsOnlyUnknown(nodeId: string, states: seq<Gateway>, steps: seq<Step>, i: nat, t: nat,
      found: string)
    returns (k: nat)
    requires IsRun(states, steps) && states[0] == Opened(nodeId) && i < |states| && HasFound(states[i], t, found)
    ensures k < i && steps[k] == Find(t, found) && found !in states[k].peers && found != nodeId
  {
    assert i > 0;
    RunIsCounted(nodeId, states, steps, i - 1);
    assert Linked(states, steps, i - 1);
    FoundByFinding(states[i - 1], steps[i - 1], t, found);
    if HasFound(states[i - 1], t, found) {
      k := DialsOnlyUnknown(nodeId, states, steps, i - 1, t, found);
    } else {
      k := i - 1;
    }
  }

  // Registering.

  predicate Discovers(g: Gateway, t: nat, first: bool) {
    && t in g.threads && g.threads[t].PeerLoop?
    && g.threads[t].loop.Discovering? && g.threads[t].loop.first == first
  }

  lemma LoopDiscovers(g: Gateway, t: nat, loop: Loop, step: Step, first: bool)
    requires LoopStep(g, t, loop, step).Some? && Discovers(LoopStep(g, t, loop, step).value, t, first)
    ensures (loop.Discovering? && loop.first == first && !step.Register? && !step.Tick?) || (step.Register? && !first)
  {
  }

  lemma DiscoveryComesFrom(g: Gateway, step: Step, t: nat, first: bool)
    requires Counted(g) && Next(g, step).Some? && Discovers(Next(g, step).value, t, first)
    ensures || (Discovers(g, t, first) && (Elsewhere(step, t) || (!step.Register? && !step.Tick?)))
            || (step.Register? && step.t == t && !first)
  {
    if t !in g.threads {
      NewThreads(g, step, t);
    } else if Elsewhere(step, t) {
      OthersStay(g, step, t);
    } else if g.threads[t].PeerLoop? && !step.Exit? {
      LoopDiscovers(g, t, g.threads[t].loop, step, first);
    }
  }

  lemma OneMoreDiscovery(states: seq<Gateway>, steps: seq<Step>, i: nat, t: nat, first: bool)
    requires IsRun(states, steps) && 0 < i < |states| && Counted(states[i - 1]) && Discovers(states[i], t, first)
    ensures var g, step := states[i - 1], steps[i - 1];
            || (Discovers(g, t, first) && (Elsewhere(step, t) || (!step.Register? && !step.Tick?)))
            || (step.Register? && step.t == t && !first)
  {
    assert Linked(states, steps, i - 1);
    DiscoveryComesFrom(states[i - 1], steps[i - 1], t, first);
  }

  /** The peer loop discovers other nodes only after registering its own in the same round, but for the first time. */
  lemma {:induction false} RegistersFirst(nodeId: string, states: seq<Gateway>, steps: seq<Step>, i: nat, t: nat)
    returns (k: nat)
    requires IsRun(states, steps) && states[0] == Opened(nodeId) && i < |states| && Discovers(states[i], t, false)
    ensures k < i && steps[k].Register? && steps[k].t == t && forall n | k < n < i :: steps[n] != Tick(t)
  {
    assert i > 0;
    RunIsCounted(nodeId, states, steps, i - 1);
    OneMoreDiscovery(states, steps, i, t, false);
    if steps[i - 1].Register? && steps[i - 1].t == t {
      k := i - 1;
    } else {
      k := RegistersFirst(nodeId, states, steps, i - 1, t);
    }
  }

  /** The discovery without pings is the one before the first registration. */
  lemma {:induction false} FirstIsFirst(nodeId: string, states: seq<Gateway>, steps: seq<Step>, i: nat, t: nat)
    requires IsRun(states, steps) && states[0] == Opened(nodeId) && i < |states| && Discovers(states[i], t, true)
    ensures forall n | 0 <= n < i && steps[n].Register? :: steps[n].t != t
  {
    if i > 0 {
      RunIsCounted(nodeId, states, steps, i - 1);
      OneMoreDiscovery(states, steps, i, t, true);
      FirstIsFirst(nodeId, states, steps, i - 1, t);
    }
  }

  // A closed peer stays closed.

  /** A thread that is still dialing has no peer yet. */
  predicate Fresh(g: Gateway) {
    forall t | t in g.threads && g.threads[t].Connect? && g.threads[t].dial.Dialing? :: t !in g.objects
  }

  /** Only a dial that succeeds makes a peer. */
  lemma NoNewPeer(g: Gateway, step: Step, peer: nat)
    requires Next(g, step).Some? && peer !in g.objects && step != DialEnds(peer, true)
    ensures peer !in Next(g, step).value.objects
  {
    if !IsCloserStep(step) {
      if step.Exit? || g.threads[step.t].Heartbeat? || g.threads[step.t].Watch? {
        OthersOnlyClose(g, step.t, step);
      } else {
        match g.threads[step.t]
        case PeerLoop(loop) => LoopOnlyCloses(g, step.t, loop, step, peer);
        case Connect(nodeId, dial) => if peer != step.t { OnlyOwnPeer(g, step.t, nodeId, dial, step, peer); }
      }
    }
  }

  lemma NoDialAgain(g: Gateway, t: nat, nodeId: string, dial: Dial, step: Step)
    requires ConnectStep(g, t, nodeId, dial, step).Some?
    ensures var h := ConnectStep(g, t, nodeId, dial, step).value;
            t in h.threads && h.threads[t].Connect? && !h.threads[t].dial.Dialing?
  {
  }

  lemma LoopStaysLoop(g: Gateway, t: nat, loop: Loop, step: Step)
    requires LoopStep(g, t, loop, step).Some?
    ensures var h := LoopStep(g, t, loop, step).value; t in h.threads && h.threads[t].PeerLoop?
  {
  }

  lemma OwnStepEndsDialing(g: Gateway, step: Step, t: nat)
    requires Next(g, step).Some? && t in g.threads && !Elsewhere(step, t) && t in Next(g, step).value.threads
    ensures var thread := Next(g, step).value.threads[t]; thread.Connect? ==> !thread.dial.Dialing?
  {
    if !step.Exit? {
      match g.threads[t]
      case PeerLoop(loop) => LoopStaysLoop(g, t, loop, step);
      case Connect(nodeId, dial) => NoDialAgain(g, t, nodeId, dial, step);
      case _ =>
    }
  }

  lemma DialingIsNew(g: Gateway, step: Step, t: nat)
    requires Counted(g) && Next(g, step).Some?
    requires var h := Next(g, step).value; t in h.threads && h.threads[t].Connect? && h.threads[t].dial.Dialing?
    ensures (t in g.threads && g.threads[t] == Next(g, step).value.threads[t]) || t == g.spawned
    ensures step != DialEnds(t, true)
  {
    if t !in g.threads {
      NewThreads(g, step, t);
    } else if Elsewhere(step, t) {
      OthersStay(g, step, t);
    } else {
      OwnStepEndsDialing(g, step, t);
    }
  }

  lemma StepKeepsFresh(g: Gateway, step: Step)
    requires Counted(g) && Fresh(g) && Next(g, step).Some?
    ensures Fresh(Next(g, step).value)
  {
    var h := Next(g, step).value;
    forall t | t in h.threads && h.threads[t].Connect? && h.threads[t].dial.Dialing? ensures t !in h.objects {
      DialingIsNew(g, step, t);
      NoNewPeer(g, step, t);
    }
  }

  lemma ClosedStays(g: Gateway, step: Step, peer: nat)
    requires Fresh(g) && Next(g, step).Some? && peer in g.objects
    ensures peer in Next(g, step).value.objects
    ensures IsClosed(g, peer) ==> IsClosed(Next(g, step).value, peer)
  {
    if !IsCloserStep(step) {
      if step.Exit? || g.threads[step.t].Heartbeat? || g.threads[step.t].Watch? {
        OthersOnlyClose(g, step.t, step);
      } else {
        match g.threads[step.t]
        case PeerLoop(loop) => LoopOnlyCloses(g, step.t, loop, step, peer);
        case Connect(nodeId, dial) => if peer != step.t { OnlyOwnPeer(g, step.t, nodeId, dial, step, peer); }
      }
    }
  }

  lemma OneMoreFresh(states: seq<Gateway>, steps: seq<Step>, i: nat)
    requires IsRun(states, steps) && 0 < i < |states| && Counted(states[i - 1]) && Fresh(states[i - 1])
    ensures Fresh(states[i])
  {
    assert Linked(states, steps, i - 1);
    StepKeepsFresh(states[i - 1], steps[i - 1]);
  }

  lemma {:induction false} RunKeepsFresh(nodeId: string, states: seq<Gateway>, steps: seq<Step>, i: nat)
    requires IsRun(states, steps) && states[0] == Opened(nodeId) && i < |states|
    ensures Counted(states[i]) && Fresh(states[i])
  {
    RunIsCounted(nodeId, states, steps, i);
    if i > 0 {
      RunKeepsFresh(nodeId, states, steps, i - 1);
      OneMoreFresh(states, steps, i);
    }
  }

  // What a Close has seen.

  /** The peer is closed, or this Close has yet to close it. */
  predicate Dealt(g: Gateway, c: nat, peer: nat) {
    && peer in g.objects
    && (IsClosed(g, peer) || (c in g.closers && g.closers[c].Closing? && peer in g.closers[c].remaining))
  }

  lemma StepKeepsDealt(g: Gateway, step: Step, c: nat, peer: nat)
    requires Fresh(g) && Dealt(g, c, peer) && Next(g, step).Some?
    ensures Dealt(Next(g, step).value, c, peer)
  {
    ClosedStays(g, step, peer);
    if !IsCloserStep(step) {
      assert SameClosing(g, Next(g, step).value);
    }
  }

  /** Every peer that a Close found in the table is closed, or still on its list, from then on. */
  lemma {:induction false} ClosesWhatItSaw(nodeId: string, states: seq<Gateway>, steps: seq<Step>, i: nat, j: nat,
      c: nat, id: string)
    requires IsRun(states, steps) && states[0] == Opened(nodeId) && i < j < |states|
    requires steps[i] == Snapshot(c) && id in states[i].peers
    ensures Dealt(states[j], c, states[i].peers[id])
    decreases j
  {
    var peer := states[i].peers[id];
    RunKeepsFresh(nodeId, states, steps, j - 1);
    assert Linked(states, steps, j - 1);
    if i == j - 1 {
      PeersAreLive(nodeId, states, steps, i, id);
    } else {
      ClosesWhatItSaw(nodeId, states, steps, i, j - 1, c, id);
      StepKeepsDealt(states[j - 1], steps[j - 1], c, peer);
    }
  }

  // A round of pings.

  /** The peers that the round has not pinged yet. */
  function Unpinged(loop: Loop): set<nat> {
    match loop
    case Pinging(rest) => rest
    case Evicting(_, others) => others
    case _ => {}
  }

  predicate InRound(g: Gateway, t: nat) {
    t in g.threads && g.threads[t].PeerLoop? && (g.threads[t].loop.Pinging? || g.threads[t].loop.Evicting?)
  }

  /** From a listing that is not the first, for as long as the thread has not rested. */
  predicate IsRound(states: seq<Gateway>, steps: seq<Step>, i: nat, j: nat, t: nat)
    requires i < j < |states| == |steps| + 1
  {
    && steps[i] == Listed(t) && t in states[i].threads && states[i].threads[t].PeerLoop?
    && states[i].threads[t].loop.Discovering? && !states[i].threads[t].loop.first
    && forall n | i < n < j :: steps[n] != Rest(t)
  }

  lemma LoopPings(g: Gateway, t: nat, loop: Loop, step: Step)
    requires (loop.Pinging? || loop.Evicting?) && !step.Rest? && LoopStep(g, t, loop, step).Some?
    ensures var h := LoopStep(g, t, loop, step).value;
            && InRound(h, t)
            && forall peer | peer in Unpinged(loop) && peer !in Unpinged(h.threads[t].loop) ::
                 step.Ping? && step.peer == peer
  {
  }

  lemma RoundGoesOn(g: Gateway, step: Step, t: nat)
    requires Counted(g) && InRound(g, t) && Next(g, step).Some? && step != Rest(t)
    ensures var h := Next(g, step).value;
            && InRound(h, t)
            && forall peer | peer in Unpinged(g.threads[t].loop) && peer !in Unpinged(h.threads[t].loop) ::
                 step.Ping? && step.t == t && step.peer == peer
  {
    if Elsewhere(step, t) {
      OthersStay(g, step, t);
    } else {
      LoopPings(g, t, g.threads[t].loop, step);
    }
  }

  predicate PingedIn(steps: seq<Step>, i: nat, j: nat, t: nat, peer: nat)
    requires j <= |steps|
  {
    exists n | i < n < j :: steps[n].Ping? && steps[n].t == t && steps[n].peer == peer
  }

  /** The round is on, and the peer has been pinged in it or is going to be. */
  predicate IsRemembered(states: seq<Gateway>, steps: seq<Step>, i: nat, j: nat, t: nat, peer: nat)
    requires j < |states| == |steps| + 1
  {
    InRound(states[j], t) && (peer in Unpinged(states[j].threads[t].loop) || PingedIn(steps, i, j, t, peer))
  }

  lemma ListingRemembers(states: seq<Gateway>, steps: seq<Step>, i: nat, t: nat, id: string)
    requires IsRun(states, steps) && i < |steps| && IsRound(states, steps, i, i + 1, t) && id in states[i].peers
    ensures IsRemembered(states, steps, i, i + 1, t, states[i].peers[id])
  {
    assert Linked(states, steps, i);
  }

  lemma OneMoreRemembered(states: seq<Gateway>, steps: seq<Step>, i: nat, j: nat, t: nat, peer: nat)
    requires IsRun(states, steps) && i < j - 1 && j < |states| && Counted(states[j - 1])
    requires IsRemembered(states, steps, i, j - 1, t, peer) && steps[j - 1] != Rest(t)
    ensures IsRemembered(states, steps, i, j, t, peer)
  {
    assert Linked(states, steps, j - 1);
    RoundGoesOn(states[j - 1], steps[j - 1], t);
    if PingedIn(steps, i, j - 1, t, peer) {
      var n :| i < n < j - 1 && steps[n].Ping? && steps[n].t == t && steps[n].peer == peer;
    } else if peer !in Unpinged(states[j].threads[t].loop) {
      assert steps[j - 1].Ping? && steps[j - 1].peer == peer;
    }
  }

  lemma {:induction false} PingedOrWaiting(nodeId: string, states: seq<Gateway>, steps: seq<Step>, i: nat, j: nat,
      t: nat, id: string)
    requires IsRun(states, steps) && states[0] == Opened(nodeId) && i < j < |states|
    requires IsRound(states, steps, i, j, t) && id in states[i].peers
    ensures IsRemembered(states, steps, i, j, t, states[i].peers[id])
    decreases j
  {
    if i == j - 1 {
      ListingRemembers(states, steps, i, t, id);
    } else {
      PingedOrWaiting(nodeId, states, steps, i, j - 1, t, id);
      RunKeepsFresh(nodeId, states, steps, j - 1);
      OneMoreRemembered(states, steps, i, j, t, states[i].peers[id]);
    }
  }

  predicate IsGoing(g: Gateway, t: nat, peer: nat) {
    peer in g.objects && (IsClosed(g, peer) || Evicts(g, t, peer))
  }

  lemma EvictionGoesOn(g: Gateway, step: Step, t: nat, peer: nat)
    requires Counted(g) && Fresh(g) && Next(g, step).Some? && IsGoing(g, t, peer)
    ensures IsGoing(Next(g, step).value, t, peer)
  {
    ClosedStays(g, step, peer);
    if !IsClosed(g, peer) && Elsewhere(step, t) {
      OthersStay(g, step, t);
    }
  }

  lemma FailureEvicts(g: Gateway, t: nat, peer: nat)
    requires Fresh(g) && peer in g.objects && Next(g, Ping(t, peer, false)).Some?
    ensures IsGoing(Next(g, Ping(t, peer, false)).value, t, peer)
  {
    ClosedStays(g, Ping(t, peer, false), peer);
  }

  lemma FirstGoing(states: seq<Gateway>, steps: seq<Step>, n: nat, t: nat, peer: nat)
    requires IsRun(states, steps) && n < |steps| && Fresh(states[n])
    requires steps[n] == Ping(t, peer, false) && peer in states[n].objects
    ensures IsGoing(states[n + 1], t, peer)
  {
    assert Linked(states, steps, n);
    FailureEvicts(states[n], t, peer);
  }

  lemma OneMoreGoing(states: seq<Gateway>, steps: seq<Step>, j: nat, t: nat, peer: nat)
    requires IsRun(states, steps) && 0 < j < |states| && Counted(states[j - 1]) && Fresh(states[j - 1])
    requires IsGoing(states[j - 1], t, peer)
    ensures IsGoing(states[j], t, peer)
  {
    assert Linked(states, steps, j - 1);
    EvictionGoesOn(states[j - 1], steps[j - 1], t, peer);
  }

  lemma {:induction false} StaysGoing(nodeId: string, states: seq<Gateway>, steps: seq<Step>, i: nat, j: nat,
      t: nat, peer: nat)
    requires IsRun(states, steps) && states[0] == Opened(nodeId) && i <= j < |states| && IsGoing(states[i], t, peer)
    ensures IsGoing(states[j], t, peer)
    decreases j
  {
    if i < j {
      StaysGoing(nodeId, states, steps, i, j - 1, t, peer);
      RunKeepsFresh(nodeId, states, steps, j - 1);
      OneMoreGoing(states, steps, j, t, peer);
    }
  }

  lemma {:induction false} PeersPersist(nodeId: string, states: seq<Gateway>, steps: seq<Step>, i: nat, j: nat,
      peer: nat)
    requires IsRun(states, steps) && states[0] == Opened(nodeId) && i <= j < |states| && peer in states[i].objects
    ensures peer in states[j].objects
    decreases j
  {
    if i < j {
      PeersPersist(nodeId, states, steps, i, j - 1, peer);
      RunKeepsFresh(nodeId, states, steps, j - 1);
      assert Linked(states, steps, j - 1);
      ClosedStays(states[j - 1], steps[j - 1], peer);
    }
  }

  /**
   A round of pings, from the listing after a discovery to the rest before the next one, pings every
   peer that was in the table when it began; one that does not answer is out of the table at once
   and closed by the end of the round.
   */
  lemma EveryPeerIsPinged(nodeId: string, states: seq<Gateway>, steps: seq<Step>, i: nat, j: nat, t: nat, id: string)
    returns (n: nat)
    requires IsRun(states, steps) && states[0] == Opened(nodeId) && i < j < |steps|
    requires IsRound(states, steps, i, j, t) && steps[j] == Rest(t) && id in states[i].peers
    ensures i < n < j && steps[n].Ping? && steps[n].t == t && steps[n].peer == states[i].peers[id]
    ensures !steps[n].ok ==>
              !InTable(states[n + 1], id, states[i].peers[id]) && IsClosed(states[j], states[i].peers[id])
  {
    var peer := states[i].peers[id];
    assert Linked(states, steps, j);
    PingedOrWaiting(nodeId, states, steps, i, j, t, id);
    n :| i < n < j && steps[n].Ping? && steps[n].t == t && steps[n].peer == peer;
    if !steps[n].ok {
      PeersAreLive(nodeId, states, steps, i, id);
      PeersPersist(nodeId, states, steps, i, n, peer);
      RunKeepsFresh(nodeId, states, steps, n);
      FirstGoing(states, steps, n, t, peer);
      StaysGoing(nodeId, states, steps, n + 1, j, t, peer);
      TakenOut(nodeId, states, steps, n, id, peer);
    }
  }

  /** A peer that does not answer is taken out of the table at once. */
  lemma TakenOut(nodeId: string, states: seq<Gateway>, steps: seq<Step>, n: nat, id: string, peer: nat)
    requires IsRun(states, steps) && states[0] == Opened(nodeId) && n < |steps|
    requires steps[n].Ping? && steps[n].peer == peer && !steps[n].ok
    ensures !InTable(states[n + 1], id, peer)
  {
    assert Linked(states, steps, n);
    RunKeepsInv(nodeId, states, steps, n);
  }
}
