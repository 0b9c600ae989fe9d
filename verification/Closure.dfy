/**
 No outbound connection is left open: one that is not in the table is closed or about to be,
 and after the barrier all are closed.
 */
module Closure {
  import opened Common
  import opened Peers
  import opened Shutdown
  import opened Barrier

  predicate IsClosed(g: Gateway, peer: nat) {
    peer in g.objects && g.objects[peer].closed
  }

  /** The thread that dialed the peer has yet to close it. */
  predicate WillClose(g: Gateway, peer: nat) {
    && peer in g.threads && g.threads[peer].Connect?
    && (g.threads[peer].dial.Dialed? || g.threads[peer].dial.Rejected? || g.threads[peer].dial.Added?
        || g.threads[peer].dial.Waiting? || g.threads[peer].dial.Unwatched?)
  }

  ghost predicate Tidy(g: Gateway) {
    forall peer | peer in g.objects :: IsClosed(g, peer) || WillClose(g, peer)
  }

  predicate Evicts(g: Gateway, l: nat, peer: nat) {
    l in g.threads && g.threads[l].PeerLoop? && g.threads[l].loop.Evicting? && g.threads[l].loop.peer == peer
  }

  predicate InTable(g: Gateway, nodeId: string, peer: nat) {
    nodeId in g.peers && g.peers[nodeId] == peer
  }

  predicate Established(thread: Thread) {
    thread.Connect? && (thread.dial.Added? || thread.dial.Waiting?)
  }

  predicate BeingEvicted(g: Gateway, peer: nat) {
    exists l | l in g.threads :: Evicts(g, l, peer)
  }

  /** An established connection that was taken out of the table is closed, or a loop is about to close it. */
  predicate AccountedFor(g: Gateway, t: nat) {
    t in g.threads && Established(g.threads[t]) ==>
        InTable(g, g.threads[t].nodeId, t) || IsClosed(g, t) || BeingEvicted(g, t)
  }

  ghost predicate Accounted(g: Gateway) {
    forall t | t in g.threads :: AccountedFor(g, t)
  }

  /** A step of one thread leaves the others where they are. */
  predicate Untouched(g: Gateway, h: Gateway, t: nat) {
    forall u | u in g.threads && u != t :: u in h.threads && h.threads[u] == g.threads[u]
  }

  lemma LoopLeavesThreads(g: Gateway, t: nat, loop: Loop, step: Step)
    requires Counted(g) && t in g.threads && LoopStep(g, t, loop, step).Some?
    ensures Untouched(g, LoopStep(g, t, loop, step).value, t)
  {
  }

  lemma ConnectLeavesThreads(g: Gateway, t: nat, nodeId: string, dial: Dial, step: Step)
    requires Counted(g) && t in g.threads && ConnectStep(g, t, nodeId, dial, step).Some?
    ensures Untouched(g, ConnectStep(g, t, nodeId, dial, step).value, t)
  {
  }

  /** The loop creates no peers and opens none again. */
  lemma LoopOnlyCloses(g: Gateway, t: nat, loop: Loop, step: Step, peer: nat)
    requires LoopStep(g, t, loop, step).Some?
    ensures var h := LoopStep(g, t, loop, step).value;
            && (peer in h.objects <==> peer in g.objects)
            && (IsClosed(g, peer) ==> IsClosed(h, peer))
            && (step.Evict? && peer in g.objects && loop.Evicting? && loop.peer == peer ==> IsClosed(h, peer))
  {
  }

  lemma LoopKeepsTidy(g: Gateway, t: nat, loop: Loop, step: Step)
    requires Counted(g) && Tidy(g) && t in g.threads && g.threads[t] == PeerLoop(loop)
    requires LoopStep(g, t, loop, step).Some?
    ensures Tidy(LoopStep(g, t, loop, step).value)
  {
    var h := LoopStep(g, t, loop, step).value;
    LoopLeavesThreads(g, t, loop, step);
    forall peer | peer in h.objects ensures IsClosed(h, peer) || WillClose(h, peer) {
      LoopOnlyCloses(g, t, loop, step, peer);
      assert IsClosed(g, peer) || WillClose(g, peer);
    }
  }

  /** A connection's thread changes no peer but its own, and leaves it only closed. */
  lemma OnlyOwnPeer(g: Gateway, t: nat, nodeId: string, dial: Dial, step: Step, peer: nat)
    requires peer != t && ConnectStep(g, t, nodeId, dial, step).Some?
    ensures var h := ConnectStep(g, t, nodeId, dial, step).value;
            (peer in h.objects <==> peer in g.objects) && (IsClosed(h, peer) <==> IsClosed(g, peer))
  {
  }

  lemma OwnPeer(g: Gateway, t: nat, nodeId: string, dial: Dial, step: Step)
    requires t in g.threads && g.threads[t] == Connect(nodeId, dial) && ConnectStep(g, t, nodeId, dial, step).Some?
    requires t in g.objects ==> IsClosed(g, t) || WillClose(g, t)
    ensures var h := ConnectStep(g, t, nodeId, dial, step).value;
            && (t in h.objects ==> IsClosed(h, t) || WillClose(h, t))
            && (!dial.Dialing? && IsClosed(g, t) ==> IsClosed(h, t))
  {
  }

  lemma ConnectKeepsTidy(g: Gateway, t: nat, nodeId: string, dial: Dial, step: Step)
    requires Counted(g) && Tidy(g)
    requires t in g.threads && g.threads[t] == Connect(nodeId, dial) && ConnectStep(g, t, nodeId, dial, step).Some?
    ensures Tidy(ConnectStep(g, t, nodeId, dial, step).value)
  {
    var h := ConnectStep(g, t, nodeId, dial, step).value;
    ConnectLeavesThreads(g, t, nodeId, dial, step);
    OwnPeer(g, t, nodeId, dial, step);
    forall peer | peer in h.objects && peer != t ensures IsClosed(h, peer) || WillClose(h, peer) {
      OnlyOwnPeer(g, t, nodeId, dial, step, peer);
      assert IsClosed(g, peer) || WillClose(g, peer);
    }
  }

  /** An eviction goes on as long as its loop does not move. */
  lemma StillEvicted(g: Gateway, h: Gateway, t: nat, peer: nat)
    requires BeingEvicted(g, peer) && !Evicts(g, t, peer)
    requires Untouched(g, h, t)
    ensures BeingEvicted(h, peer)
  {
    var l :| l in g.threads && Evicts(g, l, peer);
    assert Evicts(h, l, peer);
  }

  /** What leaves a connection accounted for: its place in the table, its closing or its eviction is kept. */
  lemma KeptAccount(g: Gateway, h: Gateway, t: nat, u: nat)
    requires AccountedFor(g, u) && u in g.threads && !Evicts(g, t, u)
    requires u in h.threads && Established(h.threads[u]) ==>
               Established(g.threads[u]) && h.threads[u].nodeId == g.threads[u].nodeId
    requires Untouched(g, h, t)
    requires IsClosed(g, u) ==> IsClosed(h, u)
    requires g.threads[u].Connect? && InTable(g, g.threads[u].nodeId, u) ==>
               InTable(h, g.threads[u].nodeId, u) || Evicts(h, t, u)
    ensures AccountedFor(h, u)
  {
    if BeingEvicted(g, u) {
      StillEvicted(g, h, t, u);
    }
  }

  lemma LoopAccountsFor(g: Gateway, t: nat, loop: Loop, step: Step, u: nat)
    requires Counted(g) && Owning(g) && AccountedFor(g, u) && u in g.threads && u != t
    requires t in g.threads && g.threads[t] == PeerLoop(loop) && LoopStep(g, t, loop, step).Some?
    ensures AccountedFor(LoopStep(g, t, loop, step).value, u)
  {
    LoopLeavesThreads(g, t, loop, step);
    LoopOnlyCloses(g, t, loop, step, u);
    if !Evicts(g, t, u) && g.threads[u].Connect? {
      LoopTakesOutFor(g, t, loop, step, u);
      KeptAccount(g, LoopStep(g, t, loop, step).value, t, u);
    }
  }

  /** The loop takes a peer out of the table only to evict it. */
  lemma LoopTakesOutFor(g: Gateway, t: nat, loop: Loop, step: Step, u: nat)
    requires t in g.threads && LoopStep(g, t, loop, step).Some? && u in g.threads && g.threads[u].Connect?
    ensures var h := LoopStep(g, t, loop, step).value;
            InTable(g, g.threads[u].nodeId, u) ==> InTable(h, g.threads[u].nodeId, u) || Evicts(h, t, u)
  {
    if InTable(g, g.threads[u].nodeId, u) {
      LoopTakesOut(g, t, loop, step, g.threads[u].nodeId);
    }
  }

  lemma LoopKeepsAccounted(g: Gateway, t: nat, loop: Loop, step: Step)
    requires Counted(g) && Owning(g) && Accounted(g)
    requires t in g.threads && g.threads[t] == PeerLoop(loop) && LoopStep(g, t, loop, step).Some?
    ensures Accounted(LoopStep(g, t, loop, step).value)
  {
    var h := LoopStep(g, t, loop, step).value;
    forall u | u in h.threads ensures AccountedFor(h, u) {
      if u in g.threads && u != t {
        LoopAccountsFor(g, t, loop, step, u);
      }
    }
  }

  lemma OtherAccount(g: Gateway, t: nat, nodeId: string, dial: Dial, step: Step, u: nat)
    requires Counted(g) && AccountedFor(g, u) && u in g.threads && u != t
    requires t in g.threads && g.threads[t] == Connect(nodeId, dial) && ConnectStep(g, t, nodeId, dial, step).Some?
    ensures AccountedFor(ConnectStep(g, t, nodeId, dial, step).value, u)
  {
    ConnectLeavesThreads(g, t, nodeId, dial, step);
    OnlyOwnPeer(g, t, nodeId, dial, step, u);
    KeptAccount(g, ConnectStep(g, t, nodeId, dial, step).value, t, u);
  }

  /** The thread's own connection: it is in the table once added, and stays there as far as the thread is concerned. */
  lemma OwnAccount(g: Gateway, t: nat, nodeId: string, dial: Dial, step: Step)
    requires Counted(g) && Tidy(g) && AccountedFor(g, t)
    requires t in g.threads && g.threads[t] == Connect(nodeId, dial) && ConnectStep(g, t, nodeId, dial, step).Some?
    ensures AccountedFor(ConnectStep(g, t, nodeId, dial, step).value, t)
  {
    var h := ConnectStep(g, t, nodeId, dial, step).value;
    if Established(g.threads[t]) {
      ConnectLeavesThreads(g, t, nodeId, dial, step);
      OwnPeer(g, t, nodeId, dial, step);
      KeptAccount(g, h, t, t);
    }
  }

  lemma ConnectKeepsAccounted(g: Gateway, t: nat, nodeId: string, dial: Dial, step: Step)
    requires Counted(g) && Tidy(g) && Accounted(g)
    requires t in g.threads && g.threads[t] == Connect(nodeId, dial) && ConnectStep(g, t, nodeId, dial, step).Some?
    ensures Accounted(ConnectStep(g, t, nodeId, dial, step).value)
  {
    var h := ConnectStep(g, t, nodeId, dial, step).value;
    forall u | u in h.threads ensures AccountedFor(h, u) {
      if u == t {
        OwnAccount(g, t, nodeId, dial, step);
      } else if u in g.threads {
        OtherAccount(g, t, nodeId, dial, step, u);
      }
    }
  }

  /** A thread that is not a loop or a connection, or that returns, moves no other thread and at most closes a peer. */
  lemma OthersOnlyClose(g: Gateway, t: nat, step: Step)
    requires t in g.threads && ThreadStep(g, t, g.threads[t], step).Some?
    requires step.Exit? || g.threads[t].Heartbeat? || g.threads[t].Watch?
    ensures var h := ThreadStep(g, t, g.threads[t], step).value;
            && Untouched(g, h, t) && h.threads.Keys <= g.threads.Keys && h.peers == g.peers
            && h.objects.Keys == g.objects.Keys && (forall peer :: IsClosed(g, peer) ==> IsClosed(h, peer))
            && (t in h.threads ==> !h.threads[t].Connect?) && !WillClose(g, t) && forall peer :: !Evicts(g, t, peer)
  {
  }

  lemma OthersKeepTidy(g: Gateway, t: nat, step: Step)
    requires Tidy(g) && Accounted(g) && t in g.threads && ThreadStep(g, t, g.threads[t], step).Some?
    requires step.Exit? || g.threads[t].Heartbeat? || g.threads[t].Watch?
    ensures Tidy(ThreadStep(g, t, g.threads[t], step).value) && Accounted(ThreadStep(g, t, g.threads[t], step).value)
  {
    OthersOnlyClose(g, t, step);
    SameAccounts(g, ThreadStep(g, t, g.threads[t], step).value, t);
  }

  lemma SameAccounts(g: Gateway, h: Gateway, t: nat)
    requires Tidy(g) && Accounted(g) && Untouched(g, h, t) && h.threads.Keys <= g.threads.Keys && h.peers == g.peers
    requires h.objects.Keys == g.objects.Keys && forall peer :: IsClosed(g, peer) ==> IsClosed(h, peer)
    requires (t in h.threads ==> !h.threads[t].Connect?) && !WillClose(g, t) && forall peer :: !Evicts(g, t, peer)
    ensures Tidy(h) && Accounted(h)
  {
    forall peer | peer in h.objects ensures IsClosed(h, peer) || WillClose(h, peer) {
      assert IsClosed(g, peer) || WillClose(g, peer);
    }
    forall u | u in h.threads ensures AccountedFor(h, u) {
      assert AccountedFor(g, u);
      if u != t {
        KeptAccount(g, h, t, u);
      }
    }
  }

  lemma ClosersKeepTidy(g: Gateway, step: Step)
    requires Tidy(g) && Accounted(g) && CloserStep(g, step).Some?
    ensures Tidy(CloserStep(g, step).value) && Accounted(CloserStep(g, step).value)
  {
    var h := CloserStep(g, step).value;
    assert h.threads == g.threads && h.peers == g.peers;
    assert forall u :: IsClosed(g, u) ==> IsClosed(h, u);
    forall u | u in h.threads ensures AccountedFor(h, u) {
      assert AccountedFor(g, u);
      if BeingEvicted(g, u) {
        var l :| l in g.threads && Evicts(g, l, u);
        assert Evicts(h, l, u);
      }
    }
  }

  lemma NextKeepsTidy(g: Gateway, step: Step)
    requires Inv(g) && Tidy(g) && Accounted(g) && Next(g, step).Some?
    ensures Tidy(Next(g, step).value) && Accounted(Next(g, step).value)
  {
    if IsCloserStep(step) {
      ClosersKeepTidy(g, step);
    } else if step.Exit? || g.threads[step.t].Heartbeat? || g.threads[step.t].Watch? {
      OthersKeepTidy(g, step.t, step);
    } else {
      match g.threads[step.t]
      case PeerLoop(loop) =>
        LoopKeepsTidy(g, step.t, loop, step);
        LoopKeepsAccounted(g, step.t, loop, step);
      case Connect(nodeId, dial) =>
        ConnectKeepsTidy(g, step.t, nodeId, dial, step);
        ConnectKeepsAccounted(g, step.t, nodeId, dial, step);
    }
  }

  lemma OneMoreTidy(states: seq<Gateway>, steps: seq<Step>, i: nat)
    requires IsRun(states, steps) && 0 < i < |states| && Inv(states[i - 1]) && Tidy(states[i - 1])
    requires Accounted(states[i - 1])
    ensures Tidy(states[i]) && Accounted(states[i])
  {
    assert Linked(states, steps, i - 1);
    NextKeepsTidy(states[i - 1], steps[i - 1]);
  }

  lemma {:induction false} RunKeepsTidy(nodeId: string, states: seq<Gateway>, steps: seq<Step>, i: nat)
    requires IsRun(states, steps) && states[0] == Opened(nodeId) && i < |states|
    ensures Inv(states[i]) && Tidy(states[i]) && Accounted(states[i])
  {
    RunKeepsInv(nodeId, states, steps, i);
    if i > 0 {
      RunKeepsTidy(nodeId, states, steps, i - 1);
      OneMoreTidy(states, steps, i);
    }
  }

  /**
   In every reachable state an established connection is in the table, closed, or being evicted:
   none lingers where nobody finds it.
   */
  lemma NoneLingers(nodeId: string, states: seq<Gateway>, steps: seq<Step>, i: nat, t: nat)
    requires IsRun(states, steps) && states[0] == Opened(nodeId) && i < |states|
    requires t in states[i].threads && Established(states[i].threads[t])
    ensures InTable(states[i], states[i].threads[t].nodeId, t) || IsClosed(states[i], t) || BeingEvicted(states[i], t)
  {
    RunKeepsTidy(nodeId, states, steps, i);
    assert AccountedFor(states[i], t);
  }

  /** Once any Close is past its wait, every connection that was ever dialed is closed. */
  lemma AllClosedAfterTheWait(nodeId: string, states: seq<Gateway>, steps: seq<Step>, i: nat, c: nat, peer: nat)
    requires IsRun(states, steps) && states[0] == Opened(nodeId) && i < |states|
    requires PastWait(states[i], c) && peer in states[i].objects
    ensures states[i].objects[peer].closed
  {
    RunKeepsTidy(nodeId, states, steps, i);
    ShutdownBarrier(nodeId, states, steps, i, i, c);
    assert IsClosed(states[i], peer) || WillClose(states[i], peer);
  }
}
