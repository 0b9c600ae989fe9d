/**
 Who a user's row may name. A row that names a running node should be backed by that node: the
 node holds the user, is about to, or will still look. The step that loses this, for a user, is
 characterised exactly by what can be seen before it is taken; in every run and every
 interleaving, over any number of gateways, the row is backed until such a step.
 */
module Ownership {
  import opened Common
  import opened UserTable
  import opened Presence

  /** If the row names this gateway's node, a running gateway backs it and a gateway that shut down is not named. */
  predicate HeldAt(users: Users, gw: Gateway, user: string) {
    MeshMember(gw) && Names(users, user, gw.node) ==>
      (gw.status.Running? ==> Backed(gw, user)) && !gw.status.Closed?
  }

  predicate HeldFor(s: System, user: string) {
    forall g | g in s.gateways :: HeldAt(s.users, s.gateways[g], user)
  }

  /** Whoever is connected, or about to be, has a row. */
  predicate HasRows(users: Users, gw: Gateway) {
    && (forall user | user in gw.conns && gw.conns[user] > 0 :: user in users)
    && (forall task | task in gw.logins && (gw.logins[task].Written? || gw.logins[task].Accepted?) ::
          gw.logins[task].user in users)
  }

  predicate Inv(s: System) {
    DistinctNodes(s) && forall g | g in s.gateways :: HasRows(s.users, s.gateways[g])
  }

  /** Something other than this login backs the user. */
  predicate BackedWithoutLogin(gw: Gateway, user: string, task: nat) {
    || Connected(gw, user)
    || (exists other | other in gw.logins :: other != task && LetIn(gw.logins[other], user))
    || OwesRelease(gw, user)
    || InReleasePass(gw, user)
  }

  /** Something other than this release backs the user. */
  predicate BackedWithoutRelease(gw: Gateway, user: string, task: nat) {
    || Connected(gw, user)
    || IsPending(gw, user)
    || (exists other | other in gw.releases :: other != task && gw.releases[other].user == user)
    || InReleasePass(gw, user)
  }

  /** Something other than the release pass of the heartbeat backs the user. */
  predicate BackedWithoutPass(gw: Gateway, user: string) {
    Connected(gw, user) || IsPending(gw, user) || OwesRelease(gw, user)
  }

  /** A node may start if no row already names it. */
  predicate SafeLifecycle(users: Users, gw: Gateway, action: Lifecycle, user: string) {
    action.Start? ==> !Names(users, user, gw.node)
  }

  /**
   A handshake may fail if the row does not name the node or something else backs it, and a
   background write may land if something backs the user or the row is disabled.
   */
  predicate SafeLogin(users: Users, gw: Gateway, action: LoginAction, user: string) {
    match action
    case HandshakeFails(task) =>
      task in gw.logins && gw.logins[task].user == user && Names(users, user, gw.node) ==>
        BackedWithoutLogin(gw, user, task)
    case BackgroundLand(task, _) =>
      task in gw.logins && gw.logins[task].user == user ==>
        Backed(gw, user) || (user in users && users[user].disabled)
    case _ => true
  }

  /** A release may be skipped, as that of the empty user is, or fail, if it is not needed. */
  predicate SafeRelease(users: Users, gw: Gateway, action: ReleaseAction, user: string) {
    match action
    case ReleaseCheck(task) =>
      task in gw.releases && gw.releases[task].user == user == "" && Names(users, user, gw.node) ==>
        BackedWithoutRelease(gw, user, task)
    case ReleaseClearFails(task) =>
      task in gw.releases && gw.releases[task].user == user && Names(users, user, gw.node) ==>
        BackedWithoutRelease(gw, user, task)
    case _ => true
  }

  /** A heartbeat that took effect may report an error, or a release of its pass fail, if the pass is not needed. */
  predicate SafeBeat(users: Users, gw: Gateway, action: BeatAction, user: string) {
    match action
    case BeatFails =>
      gw.beat.Landed? && user in gw.beat.batch && Names(users, user, gw.node) ==> BackedWithoutPass(gw, user)
    case BeatClearFails =>
      gw.beat.Releasing? && gw.beat.clearing == Some(user) && Names(users, user, gw.node) ==>
          BackedWithoutPass(gw, user)
    case _ => true
  }

  /** Only a process that starts or runs can lose a row. */
  predicate SafeAt(users: Users, gw: Gateway, step: Step, user: string) {
    MeshMember(gw) ==>
      match step
      case Life(_, action) => SafeLifecycle(users, gw, action, user)
      case Log(_, action) => gw.status.Running? ==> SafeLogin(users, gw, action, user)
      case Rel(_, action) => gw.status.Running? ==> SafeRelease(users, gw, action, user)
      case Pulse(_, action) => gw.status.Running? ==> SafeBeat(users, gw, action, user)
      case _ => true
  }

  /** The step leaves the user's row backed, as seen before it is taken. */
  predicate SafeFor(s: System, step: Step, user: string) {
    step.Tick? || step.SetFlags? || (step.g in s.gateways ==> SafeAt(s.users, s.gateways[step.g], step, user))
  }

  lemma IdleBacksNobody(gw: Gateway, user: string)
    requires Idle(gw)
    ensures !Backed(gw, user)
  {
    assert user in ConnectedUserIds(gw) || user == "" || !Connected(gw, user);
  }

  lemma LifecycleHolds(clock: Time, users: Users, nodes: Nodes, gw: Gateway, action: Lifecycle, user: string)
    requires HeldAt(users, gw, user) && MeshMember(gw)
    ensures var outcome := LifecycleStep(clock, users, nodes, gw, action);
            outcome.Some? ==> (HeldAt(outcome.value.users, outcome.value.gw, user) <==>
                SafeLifecycle(users, gw, action, user))
  {
    if action.Shutdown? && Idle(gw) {
      IdleBacksNobody(gw, user);
    }
  }

  /** A task that stays in progress, perhaps in its next phase, still backs its user. */
  lemma StillPending(gw: Gateway, gw': Gateway, user: string)
    requires IsPending(gw, user)
    requires forall task | task in gw.logins && LetIn(gw.logins[task], user) ::
               task in gw'.logins && LetIn(gw'.logins[task], user)
    ensures IsPending(gw', user)
  {
    var task :| task in gw.logins && LetIn(gw.logins[task], user);
    assert LetIn(gw'.logins[task], user);
  }

  lemma StillOwes(gw: Gateway, gw': Gateway, user: string)
    requires OwesRelease(gw, user)
    requires forall task | task in gw.releases && gw.releases[task].user == user ::
               task in gw'.releases && gw'.releases[task].user == user
    ensures OwesRelease(gw', user)
  {
    var task :| task in gw.releases && gw.releases[task].user == user;
    assert gw'.releases[task].user == user;
  }

  /** Taking a login away leaves what backs the user without it. */
  lemma FinishedLogin(gw: Gateway, user: string, task: nat)
    ensures Backed(Finish(gw, task), user) <==> BackedWithoutLogin(gw, user, task)
  {
    var gw' := Finish(gw, task);
    if IsPending(gw', user) {
      var other :| other in gw'.logins && LetIn(gw'.logins[other], user);
      assert other in gw.logins && other != task && LetIn(gw.logins[other], user);
    }
    if other: nat :| other in gw.logins && other != task && LetIn(gw.logins[other], user) {
      assert other in gw'.logins && LetIn(gw'.logins[other], user);
    }
  }

  lemma FinishedRelease(gw: Gateway, user: string, task: nat)
    ensures Backed(gw.(releases := gw.releases - {task}), user) <==> BackedWithoutRelease(gw, user, task)
  {
    var gw' := gw.(releases := gw.releases - {task});
    if OwesRelease(gw', user) {
      var other :| other in gw'.releases && gw'.releases[other].user == user;
      assert other in gw.releases && other != task && gw.releases[other].user == user;
    }
    if other: nat :| other in gw.releases && other != task && gw.releases[other].user == user {
      assert other in gw'.releases && gw'.releases[other].user == user;
    }
  }

  /** Only the user's own login can stop backing the user, and only by failing. */
  lemma LoginKeepsBacked(clock: Time, users: Users, nodes: Nodes, gw: Gateway, action: LoginAction, user: string)
    requires Backed(gw, user)
               && (action.HandshakeFails? && action.task in gw.logins ==> gw.logins[action.task].user != user)
    ensures var outcome := LoginStep(clock, users, nodes, gw, action);
            outcome.Some? ==> Backed(outcome.value.gw, user)
  {
    var outcome := LoginStep(clock, users, nodes, gw, action);
    if outcome.Some? && IsPending(gw, user) && !Connected(outcome.value.gw, user) {
      StillPending(gw, outcome.value.gw, user);
    }
  }

  lemma LoginHolds(clock: Time, users: Users, nodes: Nodes, gw: Gateway, action: LoginAction, user: string)
    requires HeldAt(users, gw, user) && MeshMember(gw) && gw.status.Running?
    ensures var outcome := LoginStep(clock, users, nodes, gw, action);
            outcome.Some? ==> (HeldAt(outcome.value.users, outcome.value.gw, user) <==>
                SafeLogin(users, gw, action, user))
  {
    var outcome := LoginStep(clock, users, nodes, gw, action);
    if outcome.Some? {
      if action.HandshakeFails? || action.BackgroundLand? {
        FinishedLogin(gw, user, action.task);
        if !LetIn(gw.logins[action.task], user) {
          OtherLoginsBack(gw, user, action.task);
        }
      } else if Names(outcome.value.users, user, gw.node) {
        if Names(users, user, gw.node) {
          LoginKeepsBacked(clock, users, nodes, gw, action, user);
        } else {
          assert LetIn(outcome.value.gw.logins[action.task], user);
        }
      }
    }
  }

  /** A login that does not let the user in is not what backs the user. */
  lemma OtherLoginsBack(gw: Gateway, user: string, task: nat)
    requires task in gw.logins && !LetIn(gw.logins[task], user)
    ensures Backed(gw, user) <==> BackedWithoutLogin(gw, user, task)
  {
    if IsPending(gw, user) {
      var other :| other in gw.logins && LetIn(gw.logins[other], user);
      assert other != task && LetIn(gw.logins[other], user);
    }
  }

  lemma ReleaseHolds(users: Users, nodes: Nodes, gw: Gateway, action: ReleaseAction, user: string)
    requires HeldAt(users, gw, user) && MeshMember(gw) && gw.status.Running?
    ensures var outcome := ReleaseStep(users, nodes, gw, action);
            outcome.Some? ==> (HeldAt(outcome.value.users, outcome.value.gw, user) <==>
                SafeRelease(users, gw, action, user))
  {
    var outcome := ReleaseStep(users, nodes, gw, action);
    if outcome.Some? {
      var gw' := outcome.value.gw;
      if action.Disconnect? {
        if OwesRelease(gw, user) {
          StillOwes(gw, gw', user);
        }
        assert gw'.releases[action.task].user == action.user;
      } else if action.task in gw'.releases {
        assert gw'.releases[action.task].user == gw.releases[action.task].user;
        if OwesRelease(gw, user) {
          StillOwes(gw, gw', user);
        }
      } else {
        FinishedRelease(gw, user, action.task);
        if gw.releases[action.task].user != user {
          OtherReleasesBack(gw, user, action.task);
        }
      }
    }
  }

  lemma OtherReleasesBack(gw: Gateway, user: string, task: nat)
    requires task in gw.releases && gw.releases[task].user != user
    ensures Backed(gw, user) <==> BackedWithoutRelease(gw, user, task)
  {
    if OwesRelease(gw, user) {
      var other :| other in gw.releases && gw.releases[other].user == user;
      assert other != task;
    }
  }

  lemma BeatHolds(clock: Time, users: Users, nodes: Nodes, gw: Gateway, action: BeatAction, user: string)
    requires HeldAt(users, gw, user) && MeshMember(gw) && gw.status.Running?
    ensures var outcome := BeatStep(clock, users, nodes, gw, action);
            outcome.Some? ==> (HeldAt(outcome.value.users, outcome.value.gw, user) <==>
                SafeBeat(users, gw, action, user))
  {
  }

  lemma LocalStepHolds(clock: Time, users: Users, nodes: Nodes, gw: Gateway, step: Step, user: string)
    requires HeldAt(users, gw, user)
    ensures var outcome := LocalStep(clock, users, nodes, gw, step);
            outcome.Some? ==> (HeldAt(outcome.value.users, outcome.value.gw, user) <==> SafeAt(users, gw, step, user))
  {
    NamesOnlyItself(clock, users, nodes, gw, step);
    if MeshMember(gw) {
      match step
      case Life(_, action) => LifecycleHolds(clock, users, nodes, gw, action, user);
      case Log(_, action) => if gw.status.Running? { LoginHolds(clock, users, nodes, gw, action, user); }
      case Rel(_, action) => if gw.status.Running? { ReleaseHolds(users, nodes, gw, action, user); }
      case Pulse(_, action) => if gw.status.Running? { BeatHolds(clock, users, nodes, gw, action, user); }
      case _ =>
    }
  }

  /** Rows are never deleted, and only rows naming `node` were made to. */
  predicate NamesAdded(users: Users, users': Users, node: string) {
    && users.Keys <= users'.Keys
    && forall user | user in users' && users'[user].nodeId.Some? ::
         users'[user].nodeId.value in {"", node} || Names(users, user, users'[user].nodeId.value)
  }

  lemma LoginNamesOnlyItself(clock: Time, users: Users, nodes: Nodes, gw: Gateway, action: LoginAction)
    ensures var outcome := LoginStep(clock, users, nodes, gw, action);
            outcome.Some? ==> outcome.value.gw.node == gw.node && NamesAdded(users, outcome.value.users, gw.node)
  {
  }

  lemma ReleaseNamesOnlyItself(users: Users, nodes: Nodes, gw: Gateway, action: ReleaseAction)
    ensures var outcome := ReleaseStep(users, nodes, gw, action);
            outcome.Some? ==> outcome.value.gw.node == gw.node && NamesAdded(users, outcome.value.users, gw.node)
  {
  }

  lemma BeatNamesOnlyItself(clock: Time, users: Users, nodes: Nodes, gw: Gateway, action: BeatAction)
    ensures var outcome := BeatStep(clock, users, nodes, gw, action);
            outcome.Some? ==> outcome.value.gw.node == gw.node && NamesAdded(users, outcome.value.users, gw.node)
  {
  }

  /** No step of one gateway makes a row name another gateway's node. */
  lemma NamesOnlyItself(clock: Time, users: Users, nodes: Nodes, gw: Gateway, step: Step)
    ensures var outcome := LocalStep(clock, users, nodes, gw, step);
            outcome.Some? ==> outcome.value.gw.node == gw.node && NamesAdded(users, outcome.value.users, gw.node)
  {
    match step
    case Log(_, action) => LoginNamesOnlyItself(clock, users, nodes, gw, action);
    case Rel(_, action) => ReleaseNamesOnlyItself(users, nodes, gw, action);
    case Pulse(_, action) => BeatNamesOnlyItself(clock, users, nodes, gw, action);
    case _ =>
  }

  lemma LifecycleKeepsRows(clock: Time, users: Users, nodes: Nodes, gw: Gateway, action: Lifecycle)
    requires HasRows(users, gw)
    ensures var outcome := LifecycleStep(clock, users, nodes, gw, action);
            outcome.Some? ==> HasRows(outcome.value.users, outcome.value.gw)
  {
  }

  lemma LoginKeepsRows(clock: Time, users: Users, nodes: Nodes, gw: Gateway, action: LoginAction)
    requires HasRows(users, gw)
    ensures var outcome := LoginStep(clock, users, nodes, gw, action);
            outcome.Some? ==> HasRows(outcome.value.users, outcome.value.gw)
  {
  }

  lemma ReleaseKeepsRows(users: Users, nodes: Nodes, gw: Gateway, action: ReleaseAction)
    requires HasRows(users, gw)
    ensures var outcome := ReleaseStep(users, nodes, gw, action);
            outcome.Some? ==> HasRows(outcome.value.users, outcome.value.gw)
  {
  }

  lemma BeatKeepsRows(clock: Time, users: Users, nodes: Nodes, gw: Gateway, action: BeatAction)
    requires HasRows(users, gw)
    ensures var outcome := BeatStep(clock, users, nodes, gw, action);
            outcome.Some? ==> HasRows(outcome.value.users, outcome.value.gw)
  {
    BeatNamesOnlyItself(clock, users, nodes, gw, action);
  }

  lemma LocalStepKeepsRows(clock: Time, users: Users, nodes: Nodes, gw: Gateway, step: Step)
    requires HasRows(users, gw)
    ensures var outcome := LocalStep(clock, users, nodes, gw, step);
            outcome.Some? ==> HasRows(outcome.value.users, outcome.value.gw)
  {
    match step
    case Life(_, action) => LifecycleKeepsRows(clock, users, nodes, gw, action);
    case Log(_, action) => LoginKeepsRows(clock, users, nodes, gw, action);
    case Rel(_, action) => ReleaseKeepsRows(users, nodes, gw, action);
    case Pulse(_, action) => BeatKeepsRows(clock, users, nodes, gw, action);
    case _ =>
  }

  lemma StepKeepsInv(s: System, step: Step)
    requires Inv(s) && Next(s, step).Some?
    ensures Inv(Next(s, step).value)
  {
    if !step.Tick? && !step.SetFlags? {
      LocalStepKeepsRows(s.clock, s.users, s.nodes, s.gateways[step.g], step);
      NamesOnlyItself(s.clock, s.users, s.nodes, s.gateways[step.g], step);
    }
  }

  lemma InitHasInv(s: System)
    requires Init(s)
    ensures Inv(s)
  {
    forall g, user | g in s.gateways && user in s.gateways[g].conns
      ensures s.gateways[g].conns[user] == 0
    {
      IdleBacksNobody(s.gateways[g], user);
    }
  }

  /** A gateway whose own step it is not keeps holding the row: nobody else writes its node's name. */
  lemma OthersHold(s: System, step: Step, g: nat, user: string)
    requires DistinctNodes(s) && Next(s, step).Some? && g in s.gateways
    requires step.Tick? || step.SetFlags? || step.g != g
    requires HeldAt(s.users, s.gateways[g], user)
    ensures var s' := Next(s, step).value; s'.gateways[g] == s.gateways[g] && HeldAt(s'.users, s'.gateways[g], user)
  {
    if !step.Tick? && !step.SetFlags? {
      NamesOnlyItself(s.clock, s.users, s.nodes, s.gateways[step.g], step);
    }
  }

  /** The exact step that loses a row: one that is not safe, as seen before it is taken. */
  lemma LostExactlyWhenUnsafe(s: System, step: Step, user: string)
    requires DistinctNodes(s) && HeldFor(s, user) && Next(s, step).Some?
    ensures HeldFor(Next(s, step).value, user) <==> SafeFor(s, step, user)
  {
    var s' := Next(s, step).value;
    forall g | g in s.gateways
        && (step.Tick? || step.SetFlags? || step.g != g) ensures HeldAt(s'.users, s'.gateways[g], user) {
      OthersHold(s, step, g, user);
    }
    if !step.Tick? && !step.SetFlags? {
      LocalStepHolds(s.clock, s.users, s.nodes, s.gateways[step.g], step, user);
      assert HeldFor(s', user) ==> HeldAt(s'.users, s'.gateways[step.g], user);
    }
  }

  lemma {:induction false} RunKeepsInv(states: seq<System>, steps: seq<Step>, i: nat)
    requires IsRun(states, steps) && Inv(states[0]) && i < |states|
    ensures Inv(states[i])
  {
    if i > 0 {
      RunKeepsInv(states, steps, i - 1);
      assert Next(states[i - 1], steps[i - 1]) == Some(states[i]);
      StepKeepsInv(states[i - 1], steps[i - 1]);
    }
  }

  lemma SafeStep(states: seq<System>, steps: seq<Step>, i: nat, user: string)
    requires IsRun(states, steps) && Inv(states[0]) && i < |steps| && HeldFor(states[i], user)
    ensures HeldFor(states[i + 1], user) <==> SafeFor(states[i], steps[i], user)
  {
    RunKeepsInv(states, steps, i);
    assert Next(states[i], steps[i]) == Some(states[i + 1]);
    LostExactlyWhenUnsafe(states[i], steps[i], user);
  }

  /** From any moment at which the row is held, it is held as long as the steps are safe for the user. */
  lemma {:induction false} HeldWhileSafe(states: seq<System>, steps: seq<Step>, i: nat, j: nat, user: string)
    requires IsRun(states, steps) && Inv(states[0]) && i <= j < |states| && HeldFor(states[i], user)
    requires forall k | i <= k < j :: SafeFor(states[k], steps[k], user)
    ensures HeldFor(states[j], user)
    decreases j
  {
    if i < j {
      HeldWhileSafe(states, steps, i, j - 1, user);
      SafeStep(states, steps, j - 1, user);
    }
  }

  /** Over a whole run the row is held throughout if and only if every step is safe for the user. */
  lemma OwnershipIsExact(states: seq<System>, steps: seq<Step>, user: string)
    requires IsRun(states, steps) && Inv(states[0]) && HeldFor(states[0], user)
    ensures (forall i | 0 <= i < |states| :: HeldFor(states[i], user))
       <==> (forall k | 0 <= k < |steps| :: SafeFor(states[k], steps[k], user))
  {
    if forall k | 0 <= k < |steps| :: SafeFor(states[k], steps[k], user) {
      forall i | 0 <= i < |states| ensures HeldFor(states[i], user) {
        HeldWhileSafe(states, steps, 0, i, user);
      }
    }
    if forall i | 0 <= i < |states| :: HeldFor(states[i], user) {
      forall k | 0 <= k < |steps| ensures SafeFor(states[k], steps[k], user) {
        SafeStep(states, steps, k, user);
        assert HeldFor(states[k + 1], user);
      }
    }
  }

  /** The step that lost the row: the row was held before it and has not been since. */
  predicate LostSince(states: seq<System>, steps: seq<Step>, k: nat, i: nat, user: string)
    requires k < i < |states| == |steps| + 1
  {
    && HeldFor(states[k], user) && !SafeFor(states[k], steps[k], user)
    && forall j | k < j <= i :: !HeldFor(states[j], user)
  }

  lemma {:induction false} LostBefore(states: seq<System>, steps: seq<Step>, i: nat, user: string) returns (k: nat)
    requires IsRun(states, steps) && Inv(states[0]) && HeldFor(states[0], user) && i < |states|
    requires !HeldFor(states[i], user)
    ensures k < i && LostSince(states, steps, k, i, user)
  {
    if HeldFor(states[i - 1], user) {
      k := i - 1;
      SafeStep(states, steps, k, user);
    } else {
      k := LostBefore(states, steps, i - 1, user);
    }
  }

  lemma InitIsHeld(s: System, user: string)
    requires Init(s)
    ensures HeldFor(s, user)
  {
  }

  /**
   In every interleaving, a row naming a running mesh node is backed by that node, and no row
   names a node that shut down cleanly, unless an unsafe step lost the row at some moment
   since which it has never been held again.
   */
  lemma OwnershipTheorem(states: seq<System>, steps: seq<Step>, i: nat, g: nat, user: string)
    requires IsRun(states, steps) && Init(states[0]) && i < |states|
    requires g in states[i].gateways && MeshMember(states[i].gateways[g])
    requires Names(states[i].users, user, states[i].gateways[g].node)
    ensures || ((states[i].gateways[g].status.Running? ==> Backed(states[i].gateways[g], user))
              && !states[i].gateways[g].status.Closed?)
            || exists k | 0 <= k < i :: LostSince(states, steps, k, i, user)
  {
    InitHasInv(states[0]);
    InitIsHeld(states[0], user);
    if HeldFor(states[i], user) {
      assert HeldAt(states[i].users, states[i].gateways[g], user);
    } else {
      var k := LostBefore(states, steps, i, user);
    }
  }

  /** A running gateway, numbered 0, with no user but perhaps ann, and nothing else in progress. */
  predicate Visited(s: System, logins: map<nat, Login>, conns: map<string, nat>) {
    && 0 in s.gateways && s.gateways[0] == Gateway("n0", Running, conns, logins, map[], Waiting(31), None)
    && s.clock == 1 && "ann" in s.users && !s.users["ann"].disabled
  }

  lemma Boot() returns (s0: System, t: System)
    ensures Init(s0) && Reaches(s0, t) && Visited(t, map[], map[]) && !Names(t.users, "ann", "n0")
  {
    var off := Gateway("n0", Stopped, map[], map[], map[], Waiting(0), None);
    s0 := System(1, map["ann" := UserRow(Some(""), 1, 1, false, false)], map[], map[0 := off]);
    ReachesItself(s0);
    t := ReachesNext(s0, s0, Life(0, Start));
  }

  lemma CachedArrival(s0: System, s: System) returns (t: System)
    requires Reaches(s0, s) && Visited(s, map[], map[])
    ensures Reaches(s0, t) && Visited(t, map[1 := Background("ann")], map["ann" := 1])
  {
    t := ReachesNext(s0, s, Log(0, CachedLogin(0, 1, "ann")));
    t := ReachesNext(s0, t, Log(0, AddConnection(0)));
    assert t.gateways[0].logins == map[1 := Background("ann")];
    assert t.gateways[0].conns == map["ann" := 1];
  }

  lemma Departure(s0: System, s: System, logins: map<nat, Login>) returns (t: System)
    requires Reaches(s0, s) && Visited(s, logins, map["ann" := 1])
    ensures Reaches(s0, t) && Visited(t, logins, map["ann" := 0])
  {
    t := ReachesNext(s0, s, Rel(0, Disconnect(0, "ann")));
    assert t.gateways[0].conns == map["ann" := 0];
    t := ReachesNext(s0, t, Rel(0, ReleaseCheck(0)));
    t := ReachesNext(s0, t, Rel(0, ReleaseClear(0, 1)));
    assert t.gateways[0].releases == map[];
  }

  /**
   The background write of a cached login can land after its connection is gone: the row then
   names a running node that neither holds the user nor will ever look again.
   */
  lemma BackgroundWriteCanLeak()
    ensures exists s, t ::
              && Init(s) && Reaches(s, t)
              && 0 in t.gateways && t.gateways[0].status.Running?
              && Names(t.users, "ann", t.gateways[0].node) && !Backed(t.gateways[0], "ann")
  {
    var s0, t := Boot();
    t := CachedArrival(s0, t);
    t := Departure(s0, t, map[1 := Background("ann")]);
    t := ReachesNext(s0, t, Log(0, BackgroundLand(1, 1)));
    assert t.gateways[0].logins.Keys == {};
  }
}
