/**
 A running node counts as live. Every running mesh node has an online row; if it registers at most
 `period` apart and every registration lands within `latency`, it is live at every instant exactly
 if the two together stay below 90 seconds, and then no heartbeat ever takes a user off it.
 */
module Liveness {
  import opened Common
  import opened UserTable
  import opened Presence
  import opened Ownership
  import opened Stamps

  predicate RunningMesh(s: System, g: nat) {
    g in s.gateways && s.gateways[g].status.Running? && MeshMember(s.gateways[g])
  }

  predicate IsOnline(nodes: Nodes, id: string) {
    id in nodes && nodes[id].online
  }

  /** A running node's row is online, and that of one that shut down is not. */
  predicate RowFits(nodes: Nodes, gw: Gateway) {
    MeshMember(gw) ==>
      && (gw.status.Running? ==> IsOnline(nodes, gw.node))
      && (gw.status.Closed? ==> !IsOnline(nodes, gw.node))
  }

  lemma LifecycleFits(clock: Time, users: Users, nodes: Nodes, gw: Gateway, action: Lifecycle)
    requires RowFits(nodes, gw)
    ensures var outcome := LifecycleStep(clock, users, nodes, gw, action);
            outcome.Some? ==> RowFits(outcome.value.nodes, outcome.value.gw)
  {
  }

  lemma OwnRowFits(clock: Time, users: Users, nodes: Nodes, gw: Gateway, step: Step)
    requires RowFits(nodes, gw) && LocalStep(clock, users, nodes, gw, step).Some?
    ensures var outcome := LocalStep(clock, users, nodes, gw, step).value; RowFits(outcome.nodes, outcome.gw)
  {
    if step.Life? {
      LifecycleFits(clock, users, nodes, gw, step.lifecycle);
    } else {
      var outcome := LocalStep(clock, users, nodes, gw, step).value;
      assert outcome.nodes == nodes && SameProcess(gw, outcome.gw);
    }
  }

  lemma LifecycleWritesOwnRow(clock: Time, users: Users, nodes: Nodes, gw: Gateway, action: Lifecycle, id: string)
    requires id != "" && id != gw.node
    ensures var outcome := LifecycleStep(clock, users, nodes, gw, action);
            outcome.Some? ==>
              && (id in outcome.value.nodes <==> id in nodes)
              && (id in nodes ==> outcome.value.nodes[id] == nodes[id])
  {
  }

  /** Nobody else touches a mesh node's row. */
  lemma OtherRowsStay(s: System, step: Step, g: nat)
    requires DistinctNodes(s) && Next(s, step).Some? && g in s.gateways && MeshMember(s.gateways[g])
    requires step.Tick? || step.SetFlags? || step.g != g
    ensures var s' := Next(s, step).value;
            && g in s'.gateways && s'.gateways[g] == s.gateways[g]
            && (s.gateways[g].node in s'.nodes <==> s.gateways[g].node in s.nodes)
            && (s.gateways[g].node in s.nodes ==> s'.nodes[s.gateways[g].node] == s.nodes[s.gateways[g].node])
  {
    if step.Life? {
      assert s.gateways[step.g].node != s.gateways[g].node;
      LifecycleWritesOwnRow(s.clock, s.users, s.nodes, s.gateways[step.g], step.lifecycle, s.gateways[g].node);
    } else if !step.Tick? && !step.SetFlags? {
      var outcome := LocalStep(s.clock, s.users, s.nodes, s.gateways[step.g], step);
      assert outcome.value.nodes == s.nodes;
    }
  }

  lemma StepKeepsFit(s: System, step: Step, g: nat)
    requires DistinctNodes(s) && Next(s, step).Some? && g in s.gateways && RowFits(s.nodes, s.gateways[g])
    ensures g in Next(s, step).value.gateways && RowFits(Next(s, step).value.nodes, Next(s, step).value.gateways[g])
  {
    if step.Tick? || step.SetFlags? || step.g != g {
      if MeshMember(s.gateways[g]) {
        OtherRowsStay(s, step, g);
      }
    } else {
      OwnRowFits(s.clock, s.users, s.nodes, s.gateways[g], step);
    }
  }

  /** In every run the row of a running mesh node is online, and that of one that shut down cleanly is offline. */
  lemma {:induction false} RunningNodesAreOnline(states: seq<System>, steps: seq<Step>, i: nat, g: nat)
    requires IsRun(states, steps) && Init(states[0]) && i < |states| && g in states[i].gateways
    ensures RowFits(states[i].nodes, states[i].gateways[g])
  {
    if i > 0 {
      assert Next(states[i - 1], steps[i - 1]) == Some(states[i]);
      RunningNodesAreOnline(states, steps, i - 1, g);
      InitHasInv(states[0]);
      RunKeepsInv(states, steps, i - 1);
      StepKeepsFit(states[i - 1], steps[i - 1], g);
    }
  }

  // The liveness margin.

  /** The node registers in this step: when it starts, and whenever its loop comes round. */
  predicate Registers(step: Step, g: nat) {
    step.Life? && step.g == g && (step.lifecycle.Start? || step.lifecycle.RegisterIssue?)
  }

  /** When the node last sent a registration. */
  function LastSent(states: seq<System>, steps: seq<Step>, i: nat, g: nat): Option<Time>
    requires i < |states| == |steps| + 1
  {
    if i == 0 then None
    else if Registers(steps[i - 1], g) then Some(states[i - 1].clock)
    else LastSent(states, steps, i - 1, g)
  }

  /** A registration in flight is not overdue, and neither is the next one. */
  predicate OnTimeAt(states: seq<System>, steps: seq<Step>, i: nat, g: nat, period: nat, latency: nat)
    requires i < |states| == |steps| + 1
  {
    RunningMesh(states[i], g) && LastSent(states, steps, i, g).Some? ==>
      var sent := LastSent(states, steps, i, g).value;
      states[i].clock <= sent + if states[i].gateways[g].registering.Some? then latency else period
  }

  /** A run in which the node registers in time, and its registrations succeed. */
  predicate RegistersOnTime(states: seq<System>, steps: seq<Step>, g: nat, period: nat, latency: nat) {
    && IsRun(states, steps) && Init(states[0]) && g in states[0].gateways
    && (forall i | 0 <= i < |steps| :: steps[i] != Life(g, RegisterFails))
    && (forall i | 0 <= i < |states| :: OnTimeAt(states, steps, i, g, period, latency))
  }

  /** The row carries the last registration, or the one before while the last is in flight. */
  predicate Fresh(s: System, g: nat, sent: Option<Time>, period: nat) {
    RunningMesh(s, g) ==>
      && sent.Some? && s.gateways[g].node in s.nodes
      && var stamp := s.nodes[s.gateways[g].node].onlineAt;
         if s.gateways[g].registering.Some? then s.gateways[g].registering == sent && sent.value <= stamp + period
         else stamp == sent.value
  }

  lemma OwnStepKeepsFresh(s: System, step: Step, g: nat, sent: Option<Time>, period: nat)
    requires Next(s, step).Some? && g in s.gateways && Fresh(s, g, sent, period)
    requires !step.Tick? && !step.SetFlags? && step.g == g && step != Life(g, RegisterFails)
    requires RunningMesh(s, g) && s.gateways[g].registering.None? && sent.Some? ==> s.clock <= sent.value + period
    ensures Fresh(Next(s, step).value, g, if Registers(step, g) then Some(s.clock) else sent, period)
  {
  }

  lemma OtherStepKeepsFresh(s: System, step: Step, g: nat, sent: Option<Time>, period: nat)
    requires DistinctNodes(s) && Next(s, step).Some? && g in s.gateways && Fresh(s, g, sent, period)
    requires step.Tick? || step.SetFlags? || step.g != g
    ensures Fresh(Next(s, step).value, g, sent, period)
  {
    if MeshMember(s.gateways[g]) {
      OtherRowsStay(s, step, g);
    }
  }

  lemma {:induction false} StaysFresh(states: seq<System>, steps: seq<Step>, i: nat, g: nat, period: nat, latency: nat)
    requires RegistersOnTime(states, steps, g, period, latency) && i < |states|
    ensures g in states[i].gateways && Fresh(states[i], g, LastSent(states, steps, i, g), period)
  {
    if i > 0 {
      var s, step, sent := states[i - 1], steps[i - 1], LastSent(states, steps, i - 1, g);
      assert Next(s, step) == Some(states[i]) && OnTimeAt(states, steps, i - 1, g, period, latency);
      StaysFresh(states, steps, i - 1, g, period, latency);
      if step.Tick? || step.SetFlags? || step.g != g {
        InitHasInv(states[0]);
        RunKeepsInv(states, steps, i - 1);
        OtherStepKeepsFresh(s, step, g, sent, period);
      } else {
        OwnStepKeepsFresh(s, step, g, sent, period);
      }
    }
  }

  predicate IsLive(s: System, g: nat) {
    g in s.gateways && LiveNode(s.nodes, s.gateways[g].node, s.clock - STALE_AFTER)
  }

  /** A node that registers in time is live at every instant it runs. */
  lemma OnTimeIsLive(states: seq<System>, steps: seq<Step>, i: nat, g: nat, period: nat, latency: nat)
    requires RegistersOnTime(states, steps, g, period, latency) && i < |states| && RunningMesh(states[i], g)
    requires period + latency < STALE_AFTER
    ensures IsLive(states[i], g)
  {
    StaysFresh(states, steps, i, g, period, latency);
    RunningNodesAreOnline(states, steps, i, g);
    assert OnTimeAt(states, steps, i, g, period, latency);
  }

  // The margin is exact.

  /** One node that starts at 100, registers again after a whole period, and waits a whole latency for it to land. */
  lemma LateRegistration(period: nat, latency: nat) returns (states: seq<System>, steps: seq<Step>)
    ensures RegistersOnTime(states, steps, 0, period, latency) && RunningMesh(states[|steps|], 0)
    ensures IsLive(states[|steps|], 0) <==> period + latency < STALE_AFTER
  {
    var off := Gateway("n", Stopped, map[], map[], map[], Waiting(0), None);
    var on := Started(off, 100);
    var sending := on.(registering := Some(100 + period));
    var nodes := PutNode(map[], "n", true, 100);
    var s0 := System(100, map[], map[], map[0 := off]);
    var s1 := System(100, map[], nodes, map[0 := on]);
    var s2 := System(100 + period, map[], nodes, map[0 := on]);
    var s3 := System(100 + period, map[], nodes, map[0 := sending]);
    var s4 := System(100 + period + latency, map[], nodes, map[0 := sending]);
    states := [s0, s1, s2, s3, s4];
    steps := [Life(0, Start), Tick(100 + period), Life(0, RegisterIssue), Tick(100 + period + latency)];
    assert Next(s0, steps[0]) == Some(s1) by { assert s0.gateways[0 := on] == s1.gateways; }
    assert Next(s1, steps[1]) == Some(s2);
    assert Next(s2, steps[2]) == Some(s3) by { assert s2.gateways[0 := sending] == s3.gateways; }
    assert Next(s3, steps[3]) == Some(s4);
    LastOfLate(states, steps, period);
  }

  lemma LastOfLate(states: seq<System>, steps: seq<Step>, period: nat)
    requires |states| == 5 && |steps| == 4 && states[0].clock == 100 && states[2].clock == 100 + period
    requires steps[0] == Life(0, Start) && steps[1].Tick? && steps[2] == Life(0, RegisterIssue) && steps[3].Tick?
    ensures LastSent(states, steps, 0, 0) == None && LastSent(states, steps, 1, 0) == Some(100)
    ensures LastSent(states, steps, 2, 0) == Some(100)
    ensures LastSent(states, steps, 3, 0) == LastSent(states, steps, 4, 0) == Some(100 + period)
  {
  }

  /** At the end of every run in which it registers in time, a node that runs is live. */
  ghost predicate AlwaysLive(period: nat, latency: nat) {
    forall states, steps, g | RegistersOnTime(states, steps, g, period, latency) ::
      RunningMesh(states[|steps|], g) ==> IsLive(states[|steps|], g)
  }

  /** A running node that registers in time is always live if and only if period and latency stay below 90 seconds. */
  lemma LivenessIsExact(period: nat, latency: nat)
    ensures AlwaysLive(period, latency) <==> period + latency < STALE_AFTER
  {
    if period + latency < STALE_AFTER {
      forall states, steps, g | RegistersOnTime(states, steps, g, period, latency)
        ensures RunningMesh(states[|steps|], g) ==> IsLive(states[|steps|], g)
      {
        if RunningMesh(states[|steps|], g) {
          OnTimeIsLive(states, steps, |steps|, g, period, latency);
        }
      }
    } else {
      var states, steps := LateRegistration(period, latency);
    }
  }

  // What that means for users.

  lemma {:induction false} ClockGoesOn(states: seq<System>, steps: seq<Step>, i: nat, j: nat)
    requires IsRun(states, steps) && i <= j < |states|
    ensures states[i].clock <= states[j].clock
    decreases j
  {
    if i < j {
      ClockGoesOn(states, steps, i, j - 1);
      assert Next(states[j - 1], steps[j - 1]) == Some(states[j]);
    }
  }

  /** A heartbeat in flight was stamped in the past. */
  lemma BeatFromThePast(states: seq<System>, steps: seq<Step>, i: nat, g: nat, user: string)
    requires IsRun(states, steps) && Init(states[0]) && i < |states| && g in states[i].gateways
    requires states[i].gateways[g].beat.Issued? && user in states[i].gateways[g].beat.batch
    ensures states[i].gateways[g].beat.stamp <= states[i].clock
  {
    InFlightWasSent(states, steps, i, g);
    var stamp := states[i].gateways[g].beat.stamp;
    var j :| 0 <= j < i && Sends(states[j], steps[j], g, user, stamp);
    assert Next(states[j], steps[j]) == Some(states[j + 1]);
    SentByThen(states[j], steps[j], g, user, stamp);
    ClockGoesOn(states, steps, j, i);
  }

  lemma SentByThen(s: System, step: Step, g: nat, user: string, stamp: Time)
    requires Sends(s, step, g, user, stamp) && Next(s, step).Some?
    ensures stamp <= s.clock
  {
  }

  /** A heartbeat at whose cutoff the recorded node is live leaves node and modification time alone. */
  lemma LandingKeepsLive(s: System, g: nat, user: string)
    requires Next(s, Pulse(g, BeatLand)).Some?
    requires user in s.users && s.users[user].nodeId.Some? && s.users[user].nodeId.value != ""
    requires user in s.gateways[g].beat.batch ==>
               LiveNode(s.nodes, s.users[user].nodeId.value, s.gateways[g].beat.stamp - STALE_AFTER)
    ensures var s' := Next(s, Pulse(g, BeatLand)).value;
            && user in s'.users && s'.users[user].nodeId == s.users[user].nodeId
            && s'.users[user].modifiedAt == s.users[user].modifiedAt
  {
  }

  /** The row names a node that runs. */
  predicate NamesRunning(s: System, user: string, k: nat) {
    RunningMesh(s, k) && Names(s.users, user, s.gateways[k].node)
  }

  /** No heartbeat of any node ever moves a row off a running node that registers in time. */
  lemma NoHeartbeatTakes(states: seq<System>, steps: seq<Step>, i: nat, g: nat, k: nat, user: string,
      period: nat, latency: nat)
    requires RegistersOnTime(states, steps, k, period, latency) && period + latency < STALE_AFTER
    requires i < |steps| && steps[i] == Pulse(g, BeatLand) && NamesRunning(states[i], user, k)
    ensures user in states[i + 1].users && states[i + 1].users[user].nodeId == states[i].users[user].nodeId
    ensures states[i + 1].users[user].modifiedAt == states[i].users[user].modifiedAt
  {
    var s := states[i];
    assert Next(s, steps[i]) == Some(states[i + 1]);
    OnTimeIsLive(states, steps, i, k, period, latency);
    if user in s.gateways[g].beat.batch {
      BeatFromThePast(states, steps, i, g, user);
    }
    LandingKeepsLive(s, g, user);
  }

  /** The step writes a login of the user, or is a clear of the user by this node. */
  predicate WritesRow(s: System, step: Step, k: nat, user: string) {
    match step
    case Log(g, LoginLand(task)) =>
      g in s.gateways && task in s.gateways[g].logins && s.gateways[g].logins[task].user == user
    case Log(g, BackgroundLand(task, _)) =>
      g in s.gateways && task in s.gateways[g].logins && s.gateways[g].logins[task].user == user
    case Rel(g, ReleaseClear(task, _)) =>
      g == k && g in s.gateways && task in s.gateways[g].releases && s.gateways[g].releases[task].user == user
    case Pulse(g, BeatClear(_)) =>
      g == k && g in s.gateways && s.gateways[g].beat.Releasing? && s.gateways[g].beat.clearing == Some(user)
    case _ => false
  }

  predicate SameRow(users: Users, users': Users, user: string)
    requires user in users
  {
    user in users' && users'[user].nodeId == users[user].nodeId && users'[user].modifiedAt == users[user].modifiedAt
  }

  lemma LoginKeepsRow(clock: Time, users: Users, nodes: Nodes, gw: Gateway, action: LoginAction, user: string)
    requires user in users && LoginStep(clock, users, nodes, gw, action).Some?
    requires action.LoginLand? || action.BackgroundLand? ==>
               action.task !in gw.logins || gw.logins[action.task].user != user
    ensures SameRow(users, LoginStep(clock, users, nodes, gw, action).value.users, user)
  {
  }

  /** A clear touches only a row that names the clearing node. */
  lemma ReleaseKeepsRow(users: Users, nodes: Nodes, gw: Gateway, action: ReleaseAction, user: string)
    requires user in users && ReleaseStep(users, nodes, gw, action).Some?
    requires action.ReleaseClear? ==>
               action.task !in gw.releases || gw.releases[action.task].user != user || !Names(users, user, gw.node)
    ensures SameRow(users, ReleaseStep(users, nodes, gw, action).value.users, user)
  {
  }

  lemma BeatKeepsRow(clock: Time, users: Users, nodes: Nodes, gw: Gateway, action: BeatAction, user: string)
    requires user in users && BeatStep(clock, users, nodes, gw, action).Some? && !action.BeatLand?
    requires action.BeatClear? && gw.beat.Releasing? && gw.beat.clearing == Some(user) ==> !Names(users, user, gw.node)
    ensures SameRow(users, BeatStep(clock, users, nodes, gw, action).value.users, user)
  {
  }

  /** Every other step but a landing heartbeat leaves node and modification time alone. */
  lemma OtherStepsKeepRow(s: System, step: Step, k: nat, user: string)
    requires DistinctNodes(s) && Next(s, step).Some? && NamesRunning(s, user, k)
    requires !WritesRow(s, step, k, user) && !(step.Pulse? && step.pulse.BeatLand?)
    ensures SameRow(s.users, Next(s, step).value.users, user)
  {
    match step
    case Log(g, action) => LoginKeepsRow(s.clock, s.users, s.nodes, s.gateways[g], action, user);
    case Rel(g, action) =>
      assert g != k ==> s.gateways[g].node != s.gateways[k].node;
      ReleaseKeepsRow(s.users, s.nodes, s.gateways[g], action, user);
    case Pulse(g, action) =>
      assert g != k ==> s.gateways[g].node != s.gateways[k].node;
      BeatKeepsRow(s.clock, s.users, s.nodes, s.gateways[g], action, user);
    case _ =>
  }

  lemma OneMoreMoment(states: seq<System>, steps: seq<Step>, j: nat, k: nat, user: string, period: nat, latency: nat)
    requires RegistersOnTime(states, steps, k, period, latency) && period + latency < STALE_AFTER && 0 < j < |states|
    requires NamesRunning(states[j - 1], user, k) && !WritesRow(states[j - 1], steps[j - 1], k, user)
    requires RunningMesh(states[j], k)
    ensures NamesRunning(states[j], user, k) && SameRow(states[j - 1].users, states[j].users, user)
  {
    var s, step := states[j - 1], steps[j - 1];
    assert Next(s, step) == Some(states[j]);
    if step.Pulse? && step.pulse.BeatLand? {
      NoHeartbeatTakes(states, steps, j - 1, step.g, k, user, period, latency);
    } else {
      InitHasInv(states[0]);
      RunKeepsInv(states, steps, j - 1);
      OtherStepsKeepRow(s, step, k, user);
    }
    SameNode(s, step, k);
  }

  /** The node runs, and nobody writes a login of the user or releases the user there, from one moment to another. */
  predicate LeftAlone(states: seq<System>, steps: seq<Step>, i: nat, j: nat, k: nat, user: string)
    requires i <= j < |states| == |steps| + 1
  {
    && (forall n | i <= n <= j :: RunningMesh(states[n], k))
    && (forall n | i <= n < j :: !WritesRow(states[n], steps[n], k, user))
  }

  /**
   Nodes do not fight over a user: from any moment at which the row names a running node, as long
   as that node runs and registers in time, the row keeps its node and its modification time
   through every step of every node, except a login write of that user or a release by that node.
   */
  lemma {:induction false} NobodyFights(states: seq<System>, steps: seq<Step>, i: nat, j: nat, k: nat, user: string,
      period: nat, latency: nat)
    requires RegistersOnTime(states, steps, k, period, latency) && period + latency < STALE_AFTER
    requires i <= j < |states| && NamesRunning(states[i], user, k) && LeftAlone(states, steps, i, j, k, user)
    ensures NamesRunning(states[j], user, k) && SameRow(states[i].users, states[j].users, user)
    decreases j
  {
    if i < j {
      NobodyFights(states, steps, i, j - 1, k, user, period, latency);
      OneMoreMoment(states, steps, j, k, user, period, latency);
    }
  }

  lemma SameNode(s: System, step: Step, k: nat)
    requires Next(s, step).Some? && k in s.gateways
    ensures k in Next(s, step).value.gateways && Next(s, step).value.gateways[k].node == s.gateways[k].node
  {
    if !step.Tick? && !step.SetFlags? && step.g == k {
      NamesOnlyItself(s.clock, s.users, s.nodes, s.gateways[k], step);
    }
  }
}
