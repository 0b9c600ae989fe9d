/**
 Where presence ends up. Once the work in progress has drained, one heartbeat of any node
 that holds the user makes the row name a node that really holds the user, for good; a
 crashed node is replaced by the first heartbeat stamped 90 seconds after the crash; and
 heartbeats alone never fight over a row that names a live node.
 */
module Convergence {
  import opened Common
  import opened UserTable
  import opened Presence
  import opened Ownership

  /** The latest moment at which the process can still have stamped a registration. */
  function LastAlive(gw: Gateway, clock: Time): Time {
    if gw.status.Crashed? then gw.status.at else clock
  }

  predicate RegistrationBound(nodes: Nodes, gw: Gateway, clock: Time) {
    && LastAlive(gw, clock) <= clock
    && (gw.registering.Some? ==> gw.registering.value <= LastAlive(gw, clock))
    && (MeshMember(gw) && gw.node in nodes ==> nodes[gw.node].onlineAt <= LastAlive(gw, clock))
  }

  predicate Known(s: System, id: string) {
    exists g | g in s.gateways :: s.gateways[g].node == id
  }

  /** Every registered node is one of the gateways, and its registration is no newer than its process. */
  predicate NodeInv(s: System) {
    && DistinctNodes(s)
    && (forall id | id in s.nodes :: Known(s, id))
    && (forall g | g in s.gateways :: RegistrationBound(s.nodes, s.gateways[g], s.clock))
  }

  lemma LifecycleKeepsBound(clock: Time, users: Users, nodes: Nodes, gw: Gateway, action: Lifecycle)
    requires RegistrationBound(nodes, gw, clock)
    ensures var outcome := LifecycleStep(clock, users, nodes, gw, action);
            outcome.Some? ==>
              && RegistrationBound(outcome.value.nodes, outcome.value.gw, clock)
              && outcome.value.gw.node == gw.node
              && (forall id | id != gw.node || !MeshMember(gw) ::
                    (id in outcome.value.nodes <==> id in nodes)
                        && (id in nodes ==> outcome.value.nodes[id] == nodes[id]))
  {
  }

  lemma NodesStayKnown(s: System, step: Step, id: string)
    requires (forall known | known in s.nodes :: Known(s, known)) && Next(s, step).Some?
               && id in Next(s, step).value.nodes
    ensures Known(Next(s, step).value, id)
  {
    var s' := Next(s, step).value;
    if id in s.nodes {
      var g :| g in s.gateways && s.gateways[g].node == id;
      assert s'.gateways[g].node == id;
    } else {
      assert s'.gateways[step.g].node == id;
    }
  }

  lemma BoundsStay(s: System, step: Step, g: nat)
    requires NodeInv(s) && Next(s, step).Some? && g in s.gateways
    ensures var s' := Next(s, step).value;
            && g in s'.gateways && s'.gateways[g].node == s.gateways[g].node
            && RegistrationBound(s'.nodes, s'.gateways[g], s'.clock)
  {
    if step.Life? {
      LifecycleKeepsBound(s.clock, s.users, s.nodes, s.gateways[step.g], step.lifecycle);
    }
  }

  lemma StepKeepsNodeInv(s: System, step: Step)
    requires NodeInv(s) && Next(s, step).Some?
    ensures NodeInv(Next(s, step).value)
  {
    var s' := Next(s, step).value;
    assert s'.gateways.Keys == s.gateways.Keys;
    forall id | id in s'.nodes ensures Known(s', id) {
      NodesStayKnown(s, step, id);
    }
    forall g | g in s.gateways
      ensures s'.gateways[g].node == s.gateways[g].node && RegistrationBound(s'.nodes, s'.gateways[g], s'.clock)
    {
      BoundsStay(s, step, g);
    }
  }

  /** If this heartbeat still has the user in hand, the user is connected. */
  predicate BeatMatches(gw: Gateway, user: string) {
    match gw.beat
    case Waiting(_) => true
    case Releasing(todo, clearing, _) => user !in todo && clearing != Some(user)
    case _ => user in gw.beat.batch ==> user in ConnectedUserIds(gw)
  }

  /**
   No login, disconnect or owed release of the user is in progress; of a dead process, no such
   statement is in flight.
   */
  predicate Drained(gw: Gateway, user: string) {
    if gw.status.Running? then
      && (forall task | task in gw.logins :: gw.logins[task].user != user)
      && (forall task | task in gw.releases :: gw.releases[task].user != user)
      && BeatMatches(gw, user)
    else
      && (forall task | task in gw.logins && (gw.logins[task].Writing? || gw.logins[task].Background?) ::
            gw.logins[task].user != user)
      && (forall task | task in gw.releases && gw.releases[task].Clear? :: gw.releases[task].user != user)
      && (gw.beat.Issued? ==> user !in gw.beat.batch)
      && (gw.beat.Releasing? ==> gw.beat.clearing != Some(user))
  }

  /** The user's own work has drained everywhere; everyone else may be doing anything. */
  predicate Settled(s: System, user: string) {
    Inv(s) && NodeInv(s) && HeldFor(s, user) && forall g | g in s.gateways :: Drained(s.gateways[g], user)
  }

  /**
   The step starts no login or disconnect of the user, crashes no node that holds the user and
   starts no node that the row names. Any other step, and any step for other users, is allowed.
   */
  predicate QuietAt(users: Users, gw: Gateway, step: Step, user: string) {
    match step
    case Life(_, action) =>
      (action.Start? && MeshMember(gw) ==> !Names(users, user, gw.node)) && (action.Crash? ==> !Connected(gw, user))
    case Log(_, action) =>
      (action.LoginIssue? ==> action.user != user) && (action.CachedLogin? ==> action.user != user)
    case Rel(_, action) => action.Disconnect? ==> action.user != user
    case _ => true
  }

  predicate Quiet(s: System, step: Step, user: string) {
    step.Tick? || step.SetFlags? || (step.g in s.gateways ==> QuietAt(s.users, s.gateways[step.g], step, user))
  }

  predicate Holds(gw: Gateway, user: string) {
    gw.status.Running? && MeshMember(gw) && Connected(gw, user)
  }

  /** The row names a running node the user is connected to. */
  predicate NamesHolder(s: System, user: string) {
    && user in s.users && s.users[user].nodeId.Some?
    && exists g | g in s.gateways :: Holds(s.gateways[g], user) && s.gateways[g].node == s.users[user].nodeId.value
  }

  /** A quiet step is safe for the user where the user's work has drained. */
  lemma QuietIsSafe(users: Users, gw: Gateway, step: Step, user: string)
    requires Drained(gw, user) && QuietAt(users, gw, step, user)
    ensures SafeAt(users, gw, step, user)
  {
  }

  lemma LifecycleKeepsDrained(clock: Time, users: Users, nodes: Nodes, gw: Gateway, action: Lifecycle, user: string)
    requires Drained(gw, user) && (action.Crash? ==> !Connected(gw, user))
    ensures var outcome := LifecycleStep(clock, users, nodes, gw, action);
            outcome.Some? ==> Drained(outcome.value.gw, user) && (Holds(gw, user) ==> Holds(outcome.value.gw, user))
  {
    if action.Shutdown? && Idle(gw) {
      IdleBacksNobody(gw, user);
    }
  }

  lemma LoginKeepsDrained(clock: Time, users: Users, nodes: Nodes, gw: Gateway, action: LoginAction, user: string)
    requires Drained(gw, user) && (action.LoginIssue? || action.CachedLogin? ==> action.user != user)
    ensures var outcome := LoginStep(clock, users, nodes, gw, action);
            outcome.Some? ==> Drained(outcome.value.gw, user) && (Holds(gw, user) ==> Holds(outcome.value.gw, user))
  {
  }

  lemma ReleaseKeepsDrained(users: Users, nodes: Nodes, gw: Gateway, action: ReleaseAction, user: string)
    requires Drained(gw, user) && (action.Disconnect? ==> action.user != user)
    ensures var outcome := ReleaseStep(users, nodes, gw, action);
            outcome.Some? ==> Drained(outcome.value.gw, user) && (Holds(gw, user) ==> Holds(outcome.value.gw, user))
  {
  }

  lemma BeatKeepsDrained(clock: Time, users: Users, nodes: Nodes, gw: Gateway, action: BeatAction, user: string)
    requires Drained(gw, user)
    ensures var outcome := BeatStep(clock, users, nodes, gw, action);
            outcome.Some? ==> Drained(outcome.value.gw, user) && (Holds(gw, user) ==> Holds(outcome.value.gw, user))
  {
  }

  /** A quiet step neither starts work on the user nor takes the user off a node that holds them. */
  lemma QuietKeepsDrained(clock: Time, users: Users, nodes: Nodes, gw: Gateway, step: Step, user: string)
    requires QuietAt(users, gw, step, user) && Drained(gw, user)
    ensures var outcome := LocalStep(clock, users, nodes, gw, step);
            outcome.Some? ==> Drained(outcome.value.gw, user) && (Holds(gw, user) ==> Holds(outcome.value.gw, user))
  {
    match step
    case Life(_, action) => LifecycleKeepsDrained(clock, users, nodes, gw, action, user);
    case Log(_, action) => LoginKeepsDrained(clock, users, nodes, gw, action, user);
    case Rel(_, action) => ReleaseKeepsDrained(users, nodes, gw, action, user);
    case Pulse(_, action) => BeatKeepsDrained(clock, users, nodes, gw, action, user);
    case _ =>
  }

  lemma QuietKeepsSettled(s: System, step: Step, user: string)
    requires Settled(s, user) && Quiet(s, step, user) && Next(s, step).Some?
    ensures Settled(Next(s, step).value, user)
  {
    StepKeepsInv(s, step);
    StepKeepsNodeInv(s, step);
    if !step.Tick? && !step.SetFlags? {
      QuietIsSafe(s.users, s.gateways[step.g], step, user);
      QuietKeepsDrained(s.clock, s.users, s.nodes, s.gateways[step.g], step, user);
    }
    LostExactlyWhenUnsafe(s, step, user);
  }

  /** If the row names a process that is not running, that node does not count as live at the cutoff. */
  predicate NamedDeadIsStale(s: System, user: string, staleBefore: Time) {
    forall g | g in s.gateways && !s.gateways[g].status.Running? && Names(s.users, user, s.gateways[g].node) ::
      !LiveNode(s.nodes, s.gateways[g].node, staleBefore)
  }

  /** The heartbeat of mesh node `g` is about to land, with the user in its batch. */
  predicate AboutToLand(s: System, g: nat, user: string) {
    && g in s.gateways && MeshMember(s.gateways[g])
    && s.gateways[g].beat.Issued? && user in s.gateways[g].beat.batch
  }

  /** In a settled state a row that names a live node names a holder. */
  lemma LiveRowIsHeld(s: System, user: string, staleBefore: Time)
    requires Settled(s, user) && user in s.users && NamedDeadIsStale(s, user, staleBefore)
    requires !UserNodeGone(s.users[user], s.nodes, staleBefore)
    ensures NamesHolder(s, user)
  {
    var id := s.users[user].nodeId.value;
    assert Known(s, id);
    var k :| k in s.gateways && s.gateways[k].node == id;
    assert HeldAt(s.users, s.gateways[k], user) && Drained(s.gateways[k], user);
    assert Connected(s.gateways[k], user);
  }

  /**
   Where the user's work has drained only a landing heartbeat moves the row, and only onto a
   node holding the user.
   */
  lemma QuietMovesOnlyToHolder(clock: Time, users: Users, nodes: Nodes, gw: Gateway, step: Step, user: string)
    requires Drained(gw, user) && user in users
    ensures var outcome := LocalStep(clock, users, nodes, gw, step);
            outcome.Some? ==>
              && user in outcome.value.users
              && (|| outcome.value.users[user].nodeId == users[user].nodeId
                  || (Holds(gw, user) && outcome.value.users[user].nodeId == Some(gw.node)))
  {
  }

  /** A node that holds the user still does after a quiet step. */
  lemma HolderStays(s: System, step: Step, k: nat, user: string)
    requires Settled(s, user) && Quiet(s, step, user) && Next(s, step).Some? && k in s.gateways
    requires Holds(s.gateways[k], user)
    ensures var s' := Next(s, step).value;
            k in s'.gateways && Holds(s'.gateways[k], user) && s'.gateways[k].node == s.gateways[k].node
  {
    if !step.Tick? && !step.SetFlags? && step.g == k {
      NamesOnlyItself(s.clock, s.users, s.nodes, s.gateways[k], step);
      QuietKeepsDrained(s.clock, s.users, s.nodes, s.gateways[k], step, user);
    }
  }

  lemma RowMovesToHolder(s: System, step: Step, user: string)
    requires Settled(s, user) && Next(s, step).Some? && user in s.users
    ensures var s' := Next(s, step).value;
            && user in s'.users
            && (|| s'.users[user].nodeId == s.users[user].nodeId
                || exists g | g in s.gateways ::
                    Holds(s.gateways[g], user) && s'.users[user].nodeId == Some(s.gateways[g].node))
  {
    if !step.Tick? && !step.SetFlags? {
      QuietMovesOnlyToHolder(s.clock, s.users, s.nodes, s.gateways[step.g], step, user);
    }
  }

  /** Once the row names a holder, quiet steps can only hand it to another holder. */
  lemma QuietKeepsHolder(s: System, step: Step, user: string)
    requires Settled(s, user) && Quiet(s, step, user) && Next(s, step).Some? && NamesHolder(s, user)
    ensures NamesHolder(Next(s, step).value, user)
  {
    RowMovesToHolder(s, step, user);
    var id := Next(s, step).value.users[user].nodeId;
    var k :| k in s.gateways && Holds(s.gateways[k], user) && Some(s.gateways[k].node) == id;
    HolderStays(s, step, k, user);
  }

  /** One landing of a heartbeat from a mesh node that holds the user settles the row. */
  lemma LandingNamesHolder(s: System, g: nat, user: string)
    requires Settled(s, user) && Next(s, Pulse(g, BeatLand)).Some?
    requires AboutToLand(s, g, user) && s.gateways[g].status.Running?
    requires NamedDeadIsStale(s, user, s.gateways[g].beat.stamp - STALE_AFTER)
    ensures NamesHolder(Next(s, Pulse(g, BeatLand)).value, user)
  {
    var s' := Next(s, Pulse(g, BeatLand)).value;
    var gw := s.gateways[g];
    assert Drained(gw, user) && HasRows(s.users, gw);
    assert Connected(gw, user);
    if UserNodeGone(s.users[user], s.nodes, gw.beat.stamp - STALE_AFTER) {
      assert s'.users[user].nodeId == Some(gw.node) && Holds(s'.gateways[g], user);
    } else {
      LiveRowIsHeld(s, user, gw.beat.stamp - STALE_AFTER);
      QuietKeepsHolder(s, Pulse(g, BeatLand), user);
    }
  }

  lemma {:induction false} SettledRun(states: seq<System>, steps: seq<Step>, i: nat, user: string)
    requires IsRun(states, steps) && Settled(states[0], user) && i < |states|
    requires forall j | 0 <= j < |steps| :: Quiet(states[j], steps[j], user)
    ensures Settled(states[i], user)
  {
    if i > 0 {
      SettledRun(states, steps, i - 1, user);
      assert Next(states[i - 1], steps[i - 1]) == Some(states[i]);
      QuietKeepsSettled(states[i - 1], steps[i - 1], user);
    }
  }

  lemma HolderOneMore(states: seq<System>, steps: seq<Step>, i: nat, user: string)
    requires IsRun(states, steps) && 0 < i <= |steps| && Settled(states[i - 1], user)
    requires Quiet(states[i - 1], steps[i - 1], user) && NamesHolder(states[i - 1], user)
    ensures NamesHolder(states[i], user)
  {
    assert Next(states[i - 1], steps[i - 1]) == Some(states[i]);
    QuietKeepsHolder(states[i - 1], steps[i - 1], user);
  }

  lemma {:induction false} HolderForGood(states: seq<System>, steps: seq<Step>, k: nat, i: nat, user: string)
    requires IsRun(states, steps) && Settled(states[0], user)
    requires forall j | 0 <= j < |steps| :: Quiet(states[j], steps[j], user)
    requires k <= i <= |steps| && NamesHolder(states[k], user)
    ensures NamesHolder(states[i], user)
  {
    if k < i {
      HolderForGood(states, steps, k, i - 1, user);
      SettledRun(states, steps, i - 1, user);
      HolderOneMore(states, steps, i, user);
    }
  }

  /**
   From any state in which the user's own work has drained, over any further run that starts no
   login or disconnect of the user, whatever all other users and nodes do: after one heartbeat
   landing of a mesh node holding the user, unless the row names a dead node that still counts
   as live at its cutoff, the row names a node that really holds the user at every later moment.
   */
  lemma ConvergenceTheorem(states: seq<System>, steps: seq<Step>, k: nat, i: nat, g: nat, user: string)
    requires IsRun(states, steps) && Settled(states[0], user)
    requires forall j | 0 <= j < |steps| :: Quiet(states[j], steps[j], user)
    requires k < i <= |steps| && steps[k] == Pulse(g, BeatLand)
    requires AboutToLand(states[k], g, user) && states[k].gateways[g].status.Running?
    requires NamedDeadIsStale(states[k], user, states[k].gateways[g].beat.stamp - STALE_AFTER)
    ensures NamesHolder(states[i], user)
  {
    SettledRun(states, steps, k, user);
    assert Next(states[k], steps[k]) == Some(states[k + 1]);
    LandingNamesHolder(states[k], g, user);
    HolderForGood(states, steps, k + 1, i, user);
  }

  lemma InitHasNodeInv(s: System)
    requires Init(s)
    ensures NodeInv(s)
  {
  }

  lemma {:induction false} RunKeepsNodeInv(states: seq<System>, steps: seq<Step>, i: nat)
    requires IsRun(states, steps) && NodeInv(states[0]) && i < |states|
    ensures NodeInv(states[i])
  {
    if i > 0 {
      RunKeepsNodeInv(states, steps, i - 1);
      assert Next(states[i - 1], steps[i - 1]) == Some(states[i]);
      StepKeepsNodeInv(states[i - 1], steps[i - 1]);
    }
  }

  /**
   In every run, a heartbeat stamped 90 seconds or more after a crash takes every user in its
   batch off the crashed node, whatever registrations the crashed process had in flight.
   */
  lemma TakeoverAfterCrash(states: seq<System>, steps: seq<Step>, i: nat, g: nat, dead: nat, user: string)
    requires IsRun(states, steps) && Init(states[0]) && i < |steps|
    requires steps[i] == Pulse(g, BeatLand) && AboutToLand(states[i], g, user)
    requires g != dead && dead in states[i].gateways && MeshMember(states[i].gateways[dead])
    requires states[i].gateways[dead].status.Crashed?
    requires states[i].gateways[g].beat.stamp >= states[i].gateways[dead].status.at + STALE_AFTER
    ensures !Names(states[i + 1].users, user, states[i].gateways[dead].node)
  {
    InitHasNodeInv(states[0]);
    RunKeepsNodeInv(states, steps, i);
    assert Next(states[i], steps[i]) == Some(states[i + 1]);
    assert RegistrationBound(states[i].nodes, states[i].gateways[dead], states[i].clock);
  }

  /** A statement that reaches a row: a heartbeat or a release, by any node, against the node table of its moment. */
  datatype RowEvent =
    | HeartbeatBy(ids: set<string>, node: string, stamp: Time, nodes: Nodes)
    | ReleaseBy(user: string, node: string, stamp: Time)

  function AfterEvent(users: Users, event: RowEvent): Users {
    match event
    case HeartbeatBy(ids, node, stamp, nodes) => MarkUsersOnline(users, nodes, ids, node, stamp, STALE_AFTER)
    case ReleaseBy(user, node, stamp) => ClearUserNodeID(users, user, node, stamp)
  }

  function AfterEvents(users: Users, events: seq<RowEvent>): Users {
    if events == [] then users else AfterEvents(AfterEvent(users, events[0]), events[1..])
  }

  /** The event is a heartbeat at whose cutoff `node` is live, or a release by some other node. */
  predicate Respects(event: RowEvent, node: string) {
    match event
    case HeartbeatBy(_, _, stamp, nodes) => LiveNode(nodes, node, stamp - STALE_AFTER)
    case ReleaseBy(_, releaser, _) => releaser != node
  }

  /** Concurrent heartbeats leave a row that names a live node alone instead of fighting over it. */
  lemma {:induction false} HeartbeatsDoNotFight(users: Users, events: seq<RowEvent>, user: string, node: string)
    requires Names(users, user, node) && node != ""
    requires forall i | 0 <= i < |events| :: Respects(events[i], node)
    ensures var users' := AfterEvents(users, events);
            Names(users', user, node) && users'[user].modifiedAt == users[user].modifiedAt
                && users'[user].disabled == users[user].disabled
  {
    if events != [] {
      assert Respects(events[0], node);
      HeartbeatsDoNotFight(AfterEvent(users, events[0]), events[1..], user, node);
    }
  }
}
