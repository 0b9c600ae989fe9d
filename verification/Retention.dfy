/**
 What a node that holds a user never does: it neither loses count of the user's connections nor
 gives up the row while one of them is left.
 */
module Retention {
  import opened Common
  import opened UserTable
  import opened Presence
  import opened Ownership

  function CountAt(gw: Gateway, user: string): nat {
    if user in gw.conns then gw.conns[user] else 0
  }

  /** Whether the step is a registered login, or a closed connection, of the user at the node. */
  predicate Arrives(s: System, step: Step, g: nat, user: string) {
    && step.Log? && step.g == g && step.login.AddConnection? && g in s.gateways
    && step.login.task in s.gateways[g].logins && s.gateways[g].logins[step.login.task].user == user
  }

  predicate Leaves(step: Step, g: nat, user: string) {
    step.Rel? && step.g == g && step.release.Disconnect? && step.release.user == user
  }

  /** A process that starts or crashes has no connections. */
  predicate Resets(step: Step, g: nat) {
    step.Life? && step.g == g && (step.lifecycle.Start? || step.lifecycle.Crash?)
  }

  lemma CountAfter(s: System, step: Step, g: nat, user: string)
    requires Next(s, step).Some? && g in s.gateways
    ensures var s' := Next(s, step).value;
            && g in s'.gateways
            && CountAt(s'.gateways[g], user) ==
               (if Resets(step, g) then 0
                else
                  CountAt(s.gateways[g], user) + (if Arrives(s, step, g, user) then 1 else 0)
                  - (if Leaves(step, g, user) then 1 else 0))
  {
    match step
    case Log(_, action) => assert g == step.g ==> LoginStep(s.clock, s.users, s.nodes, s.gateways[g], action).Some?;
    case Rel(_, action) => assert g == step.g ==> ReleaseStep(s.users, s.nodes, s.gateways[g], action).Some?;
    case Pulse(_, action) => assert g == step.g ==> BeatStep(s.clock, s.users, s.nodes, s.gateways[g], action).Some?;
    case _ =>
  }

  /** Registered logins less closed connections since the process last started. */
  function Balance(states: seq<System>, steps: seq<Step>, i: nat, g: nat, user: string): int
    requires i < |states| == |steps| + 1
  {
    if i == 0 || Resets(steps[i - 1], g) then 0
    else
      Balance(states, steps, i - 1, g, user)
      + (if Arrives(states[i - 1], steps[i - 1], g, user) then 1 else 0)
      - (if Leaves(steps[i - 1], g, user) then 1 else 0)
  }

  /** In every run a node has as many connections of a user as were registered and not closed since it started. */
  lemma {:induction false} ConnectionsAreCounted(states: seq<System>, steps: seq<Step>, i: nat, g: nat, user: string)
    requires IsRun(states, steps) && Init(states[0]) && i < |states| && g in states[0].gateways
    ensures g in states[i].gateways && CountAt(states[i].gateways[g], user) == Balance(states, steps, i, g, user)
  {
    if i == 0 {
      IdleBacksNobody(states[0].gateways[g], user);
    } else {
      ConnectionsAreCounted(states, steps, i - 1, g, user);
      assert Next(states[i - 1], steps[i - 1]) == Some(states[i]);
      CountAfter(states[i - 1], steps[i - 1], g, user);
    }
  }

  /** No release of the user is past its check. */
  predicate Unhurried(gw: Gateway, user: string) {
    && (forall task | task in gw.releases && gw.releases[task].Clear? :: gw.releases[task].user != user)
    && (gw.beat.Releasing? ==> gw.beat.clearing != Some(user))
  }

  /** A node that holds the user starts no clear for the user, and never makes the row stop naming it. */
  lemma HolderKeepsRow(clock: Time, users: Users, nodes: Nodes, gw: Gateway, step: Step, user: string)
    requires gw.status.Running? && MeshMember(gw) && Connected(gw, user) && Unhurried(gw, user)
    ensures var outcome := LocalStep(clock, users, nodes, gw, step);
            outcome.Some? ==>
              && Unhurried(outcome.value.gw, user)
              && (Names(users, user, gw.node) ==> Names(outcome.value.users, user, gw.node))
  {
    match step
    case Log(_, action) => LoginKeepsRow(clock, users, nodes, gw, action, user);
    case Rel(_, action) => ReleaseKeepsRow(users, nodes, gw, action, user);
    case Pulse(_, action) => BeatKeepsRow(clock, users, nodes, gw, action, user);
    case _ =>
  }

  lemma LoginKeepsRow(clock: Time, users: Users, nodes: Nodes, gw: Gateway, action: LoginAction, user: string)
    requires Unhurried(gw, user)
    ensures var outcome := LoginStep(clock, users, nodes, gw, action);
            outcome.Some? ==>
              && Unhurried(outcome.value.gw, user)
              && (Names(users, user, gw.node) ==> Names(outcome.value.users, user, gw.node))
  {
  }

  lemma ReleaseKeepsRow(users: Users, nodes: Nodes, gw: Gateway, action: ReleaseAction, user: string)
    requires Connected(gw, user) && Unhurried(gw, user)
    ensures var outcome := ReleaseStep(users, nodes, gw, action);
            outcome.Some? ==>
              && Unhurried(outcome.value.gw, user)
              && (Names(users, user, gw.node) ==> Names(outcome.value.users, user, gw.node))
  {
  }

  lemma BeatKeepsRow(clock: Time, users: Users, nodes: Nodes, gw: Gateway, action: BeatAction, user: string)
    requires Connected(gw, user) && Unhurried(gw, user)
    ensures var outcome := BeatStep(clock, users, nodes, gw, action);
            outcome.Some? ==>
              && Unhurried(outcome.value.gw, user)
              && (Names(users, user, gw.node) ==> Names(outcome.value.users, user, gw.node))
  {
  }

  predicate HoldsAt(s: System, g: nat, user: string) {
    g in s.gateways && s.gateways[g].status.Running? && MeshMember(s.gateways[g]) && Connected(s.gateways[g], user)
  }

  /** The step is not one of this node. */
  predicate Elsewhere(step: Step, g: nat) {
    step.Tick? || step.SetFlags? || step.g != g
  }

  lemma StaysUnhurried(s: System, step: Step, g: nat, user: string)
    requires Next(s, step).Some? && HoldsAt(s, g, user) && Unhurried(s.gateways[g], user)
    ensures var s' := Next(s, step).value;
            && g in s'.gateways && Unhurried(s'.gateways[g], user)
            && (!Elsewhere(step, g) && Names(s.users, user, s.gateways[g].node) ==>
                Names(s'.users, user, s.gateways[g].node))
  {
    if !Elsewhere(step, g) {
      HolderKeepsRow(s.clock, s.users, s.nodes, s.gateways[g], step, user);
    }
  }

  predicate HeldThroughout(states: seq<System>, i: nat, k: nat, g: nat, user: string)
    requires i <= k < |states|
  {
    forall n | i <= n <= k :: HoldsAt(states[n], g, user)
  }

  predicate UnhurriedAt(s: System, g: nat, user: string) {
    g in s.gateways && Unhurried(s.gateways[g], user)
  }

  lemma {:induction false} UnhurriedWhileHeld(states: seq<System>, steps: seq<Step>, i: nat, k: nat, g: nat,
      user: string)
    requires IsRun(states, steps) && i <= k < |states| && HeldThroughout(states, i, k, g, user)
    requires UnhurriedAt(states[i], g, user)
    ensures UnhurriedAt(states[k], g, user)
    decreases k
  {
    if i < k {
      UnhurriedWhileHeld(states, steps, i, k - 1, g, user);
      assert Next(states[k - 1], steps[k - 1]) == Some(states[k]);
      StaysUnhurried(states[k - 1], steps[k - 1], g, user);
    }
  }

  /**
   While a mesh node holds the user, from a moment at which no release of the user is past its
   check, no step of that node makes a row that names it stop naming it: closing one of several
   connections, and the release pass of a heartbeat, leave the row alone.
   */
  lemma HolderNeverLetsGo(states: seq<System>, steps: seq<Step>, i: nat, k: nat, g: nat, user: string)
    requires IsRun(states, steps) && i <= k < |steps| && HeldThroughout(states, i, k, g, user)
    requires UnhurriedAt(states[i], g, user) && !Elsewhere(steps[k], g)
    requires g in states[k].gateways && Names(states[k].users, user, states[k].gateways[g].node)
    ensures Names(states[k + 1].users, user, states[k].gateways[g].node)
  {
    UnhurriedWhileHeld(states, steps, i, k, g, user);
    assert Next(states[k], steps[k]) == Some(states[k + 1]);
    StaysUnhurried(states[k], steps[k], g, user);
  }

  /** The heartbeat never has the empty user, under which peer connections are indexed, in hand. */
  predicate NoPeers(beat: Beat) {
    match beat
    case Waiting(_) => true
    case Releasing(todo, clearing, _) => "" !in todo && clearing != Some("")
    case _ => "" !in beat.batch
  }

  lemma PulsesExcludePeers(clock: Time, users: Users, nodes: Nodes, gw: Gateway, action: BeatAction)
    requires NoPeers(gw.beat)
    ensures var outcome := BeatStep(clock, users, nodes, gw, action);
            outcome.Some? ==> NoPeers(outcome.value.gw.beat)
  {
  }

  lemma BeatsExcludePeers(clock: Time, users: Users, nodes: Nodes, gw: Gateway, step: Step)
    requires NoPeers(gw.beat)
    ensures var outcome := LocalStep(clock, users, nodes, gw, step);
            outcome.Some? ==> NoPeers(outcome.value.gw.beat)
  {
    match step
    case Pulse(_, action) => PulsesExcludePeers(clock, users, nodes, gw, action);
    case Log(_, action) =>
      assert LocalStep(clock, users, nodes, gw, step) == LoginStep(clock, users, nodes, gw, action);
    case Rel(_, action) => assert LocalStep(clock, users, nodes, gw, step) == ReleaseStep(users, nodes, gw, action);
    case _ =>
  }

  /** In every run no heartbeat refreshes, adopts or releases the empty user. */
  lemma {:induction false} PeersAreNeverBeaten(states: seq<System>, steps: seq<Step>, i: nat, g: nat)
    requires IsRun(states, steps) && Init(states[0]) && i < |states| && g in states[i].gateways
    ensures NoPeers(states[i].gateways[g].beat)
  {
    if i > 0 {
      var s, step := states[i - 1], steps[i - 1];
      assert Next(s, step) == Some(states[i]);
      PeersAreNeverBeaten(states, steps, i - 1, g);
      if !Elsewhere(step, g) {
        BeatsExcludePeers(s.clock, s.users, s.nodes, s.gateways[g], step);
      }
    }
  }
}
