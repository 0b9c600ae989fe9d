/**
 Close never waits forever on the gateway's own account: from every reachable state after the
 done flag is set, the threads can all return by steps of their own, whatever peers were added
 after Close looked at the table. Dials, pings and statements that were begun have to return.
 */
module Drain {
  import opened Common
  import opened Shutdown
  import opened Barrier

  function Play(g: Gateway, plan: seq<Step>): Option<Gateway>
    decreases |plan|
  {
    if plan == [] then Some(g)
    else
      var next := Next(g, plan[0]);
      if next.None? then None else Play(next.value, plan[1..])
  }

  /** Nothing from outside helps: no connection is lost, no timer fires, no node is found, no Close acts. */
  predicate Unaided(step: Step) {
    !IsCloserStep(step) && !step.Tick? && !step.Find? && (step.Unblock? ==> !step.lost)
  }

  ghost predicate Ready(g: Gateway) {
    Inv(g) && g.done
  }

  /** Every other thread stays where it is, except for watchers. */
  predicate Undisturbed(g: Gateway, h: Gateway, t: nat) {
    forall u | u in g.threads && u != t && !g.threads[u].Watch? :: u in h.threads && h.threads[u] == g.threads[u]
  }

  ghost predicate Leads(g: Gateway, plan: seq<Step>, h: Gateway) {
    (forall i | 0 <= i < |plan| :: Unaided(plan[i])) && Play(g, plan) == Some(h)
  }

  /** Reaches a state without the given thread and with no new ones. */
  ghost predicate Retired(g: Gateway, plan: seq<Step>, t: nat) {
    && Play(g, plan).Some?
    && var h := Play(g, plan).value;
       Leads(g, plan, h) && Ready(h) && h.threads.Keys == g.threads.Keys - {t} && Undisturbed(g, h, t)
  }

  lemma {:induction false} LeadsOn(g: Gateway, first: seq<Step>, h: Gateway, second: seq<Step>, k: Gateway)
    requires Leads(g, first, h) && Leads(h, second, k)
    ensures Leads(g, first + second, k)
    decreases |first|
  {
    if first == [] {
      assert first + second == second;
    } else {
      assert (first + second)[1..] == first[1..] + second;
      assert forall i | 0 <= i < |first[1..]| :: first[1..][i] == first[i + 1];
      LeadsOn(Next(g, first[0]).value, first[1..], h, second, k);
      assert forall i | 0 <= i < |first + second| :: Unaided((first + second)[i]);
    }
  }

  lemma RetiredLater(g: Gateway, first: seq<Step>, h: Gateway, second: seq<Step>, t: nat)
    requires Leads(g, first, h) && Undisturbed(g, h, t) && h.threads.Keys == g.threads.Keys && Retired(h, second, t)
    requires forall u | u in g.threads && u != t && !g.threads[u].Watch? :: !h.threads[u].Watch?
    ensures Retired(g, first + second, t)
  {
    LeadsOn(g, first, h, second, Play(h, second).value);
  }

  lemma OneStep(g: Gateway, step: Step)
    requires Ready(g) && Unaided(step) && Next(g, step).Some?
    ensures Leads(g, [step], Next(g, step).value) && Ready(Next(g, step).value)
  {
    NextKeepsInv(g, step);
    assert [step][1..] == [];
    assert Play(Next(g, step).value, []) == Next(g, step);
  }

  /** One step of a thread, and its retirement from there. */
  lemma Then(g: Gateway, step: Step, h: Gateway, rest: seq<Step>, t: nat) returns (plan: seq<Step>)
    requires Ready(g) && Unaided(step) && Next(g, step) == Some(h)
    requires Undisturbed(g, h, t) && h.threads.Keys == g.threads.Keys && Retired(h, rest, t)
    ensures Retired(g, plan, t)
  {
    OneStep(g, step);
    plan := [step] + rest;
    RetiredLater(g, [step], h, rest, t);
  }

  lemma Leaves(g: Gateway, t: nat) returns (plan: seq<Step>)
    requires Ready(g) && t in g.threads && MayExit(g, g.threads[t])
    ensures Retired(g, plan, t)
  {
    plan := [Exit(t)];
    OneStep(g, Exit(t));
    assert (g.threads - {t}).Keys == g.threads.Keys - {t};
  }

  lemma RetireHeartbeat(g: Gateway, t: nat) returns (plan: seq<Step>)
    requires Ready(g) && t in g.threads && g.threads[t].Heartbeat?
    ensures Retired(g, plan, t)
  {
    if g.threads[t].beating {
      OneStep(g, Beat(t));
      var h := Moved(g, t, Heartbeat(false));
      plan := Leaves(h, t);
      plan := Then(g, Beat(t), h, plan, t);
    } else {
      plan := Leaves(g, t);
    }
  }

  lemma RetireWatch(g: Gateway, t: nat) returns (plan: seq<Step>)
    requires Ready(g) && t in g.threads && g.threads[t].Watch?
    ensures Retired(g, plan, t)
  {
    if g.threads[t].fired {
      plan := Leaves(g, t);
    } else {
      OneStep(g, Fire(t));
      var h := Moved(Shut(g, g.threads[t].peer), t, Watch(g.threads[t].peer, true));
      plan := Leaves(h, t);
      plan := Then(g, Fire(t), h, plan, t);
    }
  }

  /** From the end of the wait on, a connection's thread disconnects, removes its peer and returns. */
  lemma RetireUnwatched(g: Gateway, t: nat) returns (plan: seq<Step>)
    requires Ready(g) && t in g.threads && g.threads[t].Connect?
    requires g.threads[t].dial.Unwatched? || g.threads[t].dial.Disconnected? || g.threads[t].dial.Rejected?
               || g.threads[t].dial.Finished?
    ensures Retired(g, plan, t)
    decreases if g.threads[t].dial.Unwatched? then 2 else if g.threads[t].dial.Finished? then 0 else 1
  {
    if g.threads[t].dial.Finished? {
      plan := Leaves(g, t);
    } else {
      var step :=
        if g.threads[t].dial.Unwatched? then Disconnect(t)
        else if g.threads[t].dial.Disconnected? then RemovePeer(t)
        else Reject(t);
      var h := Next(g, step).value;
      OneStep(g, step);
      plan := RetireUnwatched(h, t);
      plan := Then(g, step, h, plan, t);
    }
  }

  /** A waiting thread is unblocked by its watcher if nothing else has closed its peer. */
  lemma RetireWaiting(g: Gateway, t: nat) returns (plan: seq<Step>)
    requires Ready(g) && t in g.threads && g.threads[t].Connect? && g.threads[t].dial.Waiting?
    ensures Retired(g, plan, t)
    decreases if t in g.objects && g.objects[t].closed then 0 else 1
  {
    var w := g.threads[t].dial.watcher;
    var closed := t in g.objects && g.objects[t].closed;
    var step := if closed then Unblock(t, false) else Fire(w);
    OneStep(g, step);
    var h := Next(g, step).value;
    if closed {
      plan := RetireUnwatched(h, t);
    } else {
      plan := RetireWaiting(h, t);
    }
    plan := Then(g, step, h, plan, t);
  }

  /** A peer added after Close looked at the table still gets a watcher, which sees the flag at once. */
  lemma RetireAdded(g: Gateway, t: nat) returns (plan: seq<Step>)
    requires Ready(g) && t in g.threads && g.threads[t].Connect? && g.threads[t].dial.Added?
    ensures Retired(g, plan, t)
  {
    var w := g.spawned;
    OneStep(g, StartWatch(t));
    var h := Next(g, StartWatch(t)).value;
    assert h.threads.Keys == g.threads.Keys + {w} && Undisturbed(g, h, t);
    var watch := RetireWatch(h, w);
    var k := Play(h, watch).value;
    LeadsOn(g, [StartWatch(t)], h, watch, k);
    assert k.threads.Keys == g.threads.Keys && k.threads[t] == h.threads[t];
    plan := RetireWaiting(k, t);
    RetiredLater(g, [StartWatch(t)] + watch, k, plan, t);
    plan := [StartWatch(t)] + watch + plan;
  }

  lemma RetireDialed(g: Gateway, t: nat) returns (plan: seq<Step>)
    requires Ready(g) && t in g.threads && g.threads[t].Connect? && g.threads[t].dial.Dialed?
    ensures Retired(g, plan, t)
  {
    OneStep(g, AddPeer(t));
    var h := Next(g, AddPeer(t)).value;
    if h.threads[t].dial.Added? {
      plan := RetireAdded(h, t);
    } else {
      plan := RetireUnwatched(h, t);
    }
    plan := Then(g, AddPeer(t), h, plan, t);
  }

  lemma RetireConnect(g: Gateway, t: nat) returns (plan: seq<Step>)
    requires Ready(g) && t in g.threads && g.threads[t].Connect?
    ensures Retired(g, plan, t)
  {
    match g.threads[t].dial
    case Waiting(_) => plan := RetireWaiting(g, t);
    case Added => plan := RetireAdded(g, t);
    case Dialing =>
      OneStep(g, DialEnds(t, false));
      var h := Next(g, DialEnds(t, false)).value;
      plan := Leaves(h, t);
      plan := Then(g, DialEnds(t, false), h, plan, t);
    case Dialed => plan := RetireDialed(g, t);
    case _ => plan := RetireUnwatched(g, t);
  }

  lemma RetirePinging(g: Gateway, t: nat) returns (plan: seq<Step>)
    requires Ready(g) && t in g.threads && g.threads[t].PeerLoop?
               && (g.threads[t].loop.Pinging? || g.threads[t].loop.Idle?)
    ensures Retired(g, plan, t)
    decreases if g.threads[t].loop.Idle? then 0 else 1 + |g.threads[t].loop.rest|
  {
    if g.threads[t].loop.Idle? {
      plan := Leaves(g, t);
    } else {
      var rest := g.threads[t].loop.rest;
      var step;
      if rest == {} {
        step := Rest(t);
      } else {
        var peer :| peer in rest;
        step := Ping(t, peer, true);
      }
      OneStep(g, step);
      var h := Next(g, step).value;
      plan := RetirePinging(h, t);
      plan := Then(g, step, h, plan, t);
    }
  }

  /** A node that was found just before is still dialed, by a thread that returns. */
  lemma RetireFound(g: Gateway, t: nat) returns (plan: seq<Step>, h: Gateway)
    requires Ready(g) && t in g.threads && g.threads[t].PeerLoop? && g.threads[t].loop.Discovering?
    requires g.threads[t].loop.unknown.Some?
    ensures Leads(g, plan, h) && Ready(h) && Undisturbed(g, h, t) && h.threads.Keys == g.threads.Keys
    ensures h.threads[t] == PeerLoop(Discovering(g.threads[t].loop.first, None))
  {
    OneStep(g, Discover(t));
    var k := Next(g, Discover(t)).value;
    assert k.threads.Keys == g.threads.Keys + {g.spawned};
    plan := RetireConnect(k, g.spawned);
    h := Play(k, plan).value;
    LeadsOn(g, [Discover(t)], k, plan, h);
    plan := [Discover(t)] + plan;
  }

  lemma RetireListed(g: Gateway, t: nat) returns (plan: seq<Step>)
    requires Ready(g) && t in g.threads && g.threads[t].PeerLoop? && g.threads[t].loop.Discovering?
    requires g.threads[t].loop.unknown.None?
    ensures Retired(g, plan, t)
  {
    OneStep(g, Listed(t));
    var h := Next(g, Listed(t)).value;
    plan := RetirePinging(h, t);
    plan := Then(g, Listed(t), h, plan, t);
  }

  lemma RetireLoop(g: Gateway, t: nat) returns (plan: seq<Step>)
    requires Ready(g) && t in g.threads && g.threads[t].PeerLoop?
    ensures Retired(g, plan, t)
  {
    match g.threads[t].loop
    case Registering =>
      OneStep(g, Register(t, false));
      var h := Next(g, Register(t, false)).value;
      plan := RetireListed(h, t);
      plan := Then(g, Register(t, false), h, plan, t);
    case Discovering(_, None) => plan := RetireListed(g, t);
    case Discovering(_, Some(_)) =>
      var found, h := RetireFound(g, t);
      plan := RetireListed(h, t);
      RetiredLater(g, found, h, plan, t);
      plan := found + plan;
    case Evicting(_, _) =>
      OneStep(g, Evict(t));
      var h := Next(g, Evict(t)).value;
      plan := RetirePinging(h, t);
      plan := Then(g, Evict(t), h, plan, t);
    case _ => plan := RetirePinging(g, t);
  }

  lemma Retire(g: Gateway, t: nat) returns (plan: seq<Step>)
    requires Ready(g) && t in g.threads
    ensures Retired(g, plan, t)
  {
    match g.threads[t]
    case PeerLoop(_) => plan := RetireLoop(g, t);
    case Heartbeat(_) => plan := RetireHeartbeat(g, t);
    case Connect(_, _) => plan := RetireConnect(g, t);
    case Watch(_, _) => plan := RetireWatch(g, t);
  }

  /** All threads can return, one after the other. */
  lemma {:induction false} AllRetire(g: Gateway) returns (plan: seq<Step>, h: Gateway)
    requires Ready(g)
    ensures Leads(g, plan, h) && Ready(h) && h.threads == map[] && h.tokens == 0
    decreases |g.threads.Keys|
  {
    if g.threads.Keys == {} {
      plan, h := [], g;
    } else {
      var t :| t in g.threads.Keys;
      var first := Retire(g, t);
      var k := Play(g, first).value;
      var second;
      second, h := AllRetire(k);
      LeadsOn(g, first, k, second, h);
      plan := first + second;
    }
  }

  /** From every reachable state after a Close has begun, the wait of every Close can be over. */
  lemma CloseCanFinish(nodeId: string, states: seq<Gateway>, steps: seq<Step>, i: nat)
    returns (plan: seq<Step>, h: Gateway)
    requires IsRun(states, steps) && states[0] == Opened(nodeId) && i < |states| && states[i].done
    ensures Leads(states[i], plan, h) && h.tokens == 0
  {
    RunKeepsInv(nodeId, states, steps, i);
    plan, h := AllRetire(states[i]);
  }
}
