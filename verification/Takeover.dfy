/**
 How long a crashed node can keep a user. A surviving mesh node that holds the user beats
 at most one period apart, so the row stops naming the crashed node within 90 seconds, or one
 statement if that is longer, one period and one statement of the crash.
 */
module Takeover {
  import opened Common
  import opened UserTable
  import opened Presence
  import opened Ownership
  import opened Convergence
  import opened Timing

  /** Two heartbeats of one node are sent at most this far apart. */
  function Period(lim: Limits): Time {
    HEARTBEAT_INTERVAL + lim.statement + lim.release
  }

  /** From here on the dead node is stale and nothing it sent is in flight. */
  function Due(t: Time, lim: Limits): Time {
    t + if lim.statement <= STALE_AFTER then STALE_AFTER else lim.statement
  }

  /** The survivor has not yet landed a heartbeat with the user that was stamped at or after `due`. */
  predicate NotTakenYet(beat: Beat, user: string, due: Time, lim: Limits) {
    match beat
    case Waiting(wake) => wake <= due + Period(lim)
    case Snapped(batch, at) => at <= due + Period(lim) && (user in batch || at <= due)
    case Issued(batch, at, _) => at <= due + Period(lim) && (user in batch || at <= due)
    case Landed(_, at) => at <= due
    case Releasing(_, _, since) => since <= due + lim.statement
  }

  /** `dead` crashed at `t`, and the mesh node `g` holds the user. */
  predicate Survives(s: System, dead: nat, t: Time, g: nat, user: string) {
    && dead in s.gateways && MeshMember(s.gateways[dead]) && s.gateways[dead].status == Crashed(t)
    && g in s.gateways && MeshMember(s.gateways[g]) && s.gateways[g].status.Running?
    && user != "" && Connected(s.gateways[g], user)
  }

  predicate TakeoverInv(s: System, lim: Limits, dead: nat, t: Time, g: nat, user: string) {
    TimeInv(s, lim) && NodeInv(s) && Survives(s, dead, t, g, user) && Taking(s, lim, dead, t, g, user)
  }

  /** The dead node has sent nothing since, and the survivor is on its way while the row names it. */
  predicate Taking(s: System, lim: Limits, dead: nat, t: Time, g: nat, user: string)
    requires Survives(s, dead, t, g, user)
  {
    && Stamped(s.gateways[dead], t)
    && (Names(s.users, user, s.gateways[dead].node) ==> NotTakenYet(s.gateways[g].beat, user, Due(t, lim), lim))
  }

  /** A crashed process sends nothing new, and what it had in flight lands within one statement of the crash. */
  lemma CrashedLogin(clock: Time, users: Users, nodes: Nodes, gw: Gateway, action: LoginAction, lim: Limits,
      t: Time, user: string)
    requires gw.status == Crashed(t) && Stamped(gw, t) && OnTime(gw, clock, lim)
    ensures var outcome := LoginStep(clock, users, nodes, gw, action);
            outcome.Some? ==>
              && Stamped(outcome.value.gw, t)
              && (Names(outcome.value.users, user, gw.node) ==>
                  Names(users, user, gw.node) || clock <= t + lim.statement)
  {
  }

  lemma CrashedBeat(clock: Time, users: Users, nodes: Nodes, gw: Gateway, action: BeatAction, lim: Limits, t: Time,
      user: string)
    requires gw.status == Crashed(t) && Stamped(gw, t) && OnTime(gw, clock, lim)
    ensures var outcome := BeatStep(clock, users, nodes, gw, action);
            outcome.Some? ==>
              && Stamped(outcome.value.gw, t)
              && (Names(outcome.value.users, user, gw.node) ==>
                  Names(users, user, gw.node) || clock <= t + lim.statement)
  {
  }

  lemma CrashedStep(clock: Time, users: Users, nodes: Nodes, gw: Gateway, step: Step, lim: Limits, t: Time,
      user: string)
    requires gw.status == Crashed(t) && Stamped(gw, t) && OnTime(gw, clock, lim) && MeshMember(gw)
    ensures var outcome := LocalStep(clock, users, nodes, gw, step);
            outcome.Some? && outcome.value.gw.status == Crashed(t) ==>
              && Stamped(outcome.value.gw, t)
              && (Names(outcome.value.users, user, gw.node) ==>
                  Names(users, user, gw.node) || clock <= t + lim.statement)
  {
    match step
    case Log(_, action) => CrashedLogin(clock, users, nodes, gw, action, lim, t, user);
    case Pulse(_, action) => CrashedBeat(clock, users, nodes, gw, action, lim, t, user);
    case _ =>
  }

  /** Until `due` nothing can have been missed. */
  lemma EarlyIsNotTaken(beat: Beat, clock: Time, user: string, due: Time, lim: Limits)
    requires BeatStamped(beat, clock) && clock <= due
    ensures NotTakenYet(beat, user, due, lim)
  {
  }

  /** The survivor's loop either leaves the user for its next heartbeat in time, or has taken them. */
  lemma SurvivorBeat(clock: Time, users: Users, nodes: Nodes, gw: Gateway, action: BeatAction, lim: Limits,
      due: Time, user: string, node: string)
    requires gw.status.Running? && MeshMember(gw) && node != gw.node && node != ""
    requires OnTime(gw, clock, lim) && Stamped(gw, clock) && user in ConnectedUserIds(gw) && !action.BeatFails?
    requires NotTakenYet(gw.beat, user, due, lim)
    requires node in nodes ==> nodes[node].onlineAt <= due - STALE_AFTER
    ensures var outcome := BeatStep(clock, users, nodes, gw, action);
            outcome.Some? && Names(outcome.value.users, user, node) ==>
                NotTakenYet(outcome.value.gw.beat, user, due, lim)
  {
  }

  /** Any step but one of the dead node leaves that node alone and adds no row naming it. */
  lemma OtherStep(s: System, step: Step, dead: nat, user: string)
    requires Next(s, step).Some? && dead in s.gateways && MeshMember(s.gateways[dead]) && DistinctNodes(s)
    requires step.Tick? || step.SetFlags? || step.g != dead
    ensures var s' := Next(s, step).value;
            && dead in s'.gateways && s'.gateways[dead] == s.gateways[dead]
            && (Names(s'.users, user, s.gateways[dead].node) ==> Names(s.users, user, s.gateways[dead].node))
  {
    if !step.Tick? && !step.SetFlags? {
      NamesOnlyItself(s.clock, s.users, s.nodes, s.gateways[step.g], step);
    }
  }

  lemma DeadStep(s: System, step: Step, lim: Limits, dead: nat, t: Time, user: string)
    requires Next(s, step).Some? && !step.Tick? && !step.SetFlags? && step.g == dead
    requires MeshMember(s.gateways[dead]) && s.gateways[dead].status == Crashed(t)
    requires Stamped(s.gateways[dead], t) && OnTime(s.gateways[dead], s.clock, lim)
    ensures var s' := Next(s, step).value;
            s'.gateways[dead].status == Crashed(t) ==>
              && Stamped(s'.gateways[dead], t) && s'.gateways[dead].node == s.gateways[dead].node
              && (Names(s'.users, user, s.gateways[dead].node) ==>
                  Names(s.users, user, s.gateways[dead].node) || s.clock <= t + lim.statement)
  {
    CrashedStep(s.clock, s.users, s.nodes, s.gateways[dead], step, lim, t, user);
    NamesOnlyItself(s.clock, s.users, s.nodes, s.gateways[dead], step);
  }

  /** Where a row naming the dead node can come from. */
  lemma NamesNotRevived(s: System, step: Step, lim: Limits, dead: nat, t: Time, g: nat, user: string)
    requires TakeoverInv(s, lim, dead, t, g, user) && Timely(s, lim) && Next(s, step).Some?
    requires Survives(Next(s, step).value, dead, t, g, user)
    ensures var s' := Next(s, step).value;
            && Stamped(s'.gateways[dead], t) && s'.gateways[dead].node == s.gateways[dead].node
            && (Names(s'.users, user, s'.gateways[dead].node) ==>
                Names(s.users, user, s.gateways[dead].node) || s.clock <= t + lim.statement)
  {
    if !step.Tick? && !step.SetFlags? && step.g == dead {
      DeadStep(s, step, lim, dead, t, user);
    } else {
      OtherStep(s, step, dead, user);
    }
  }

  lemma OnlyBeatsMoveTheLoop(clock: Time, users: Users, nodes: Nodes, gw: Gateway, step: Step)
    requires gw.status.Running? && !step.Pulse?
    ensures var outcome := LocalStep(clock, users, nodes, gw, step);
            outcome.Some? && outcome.value.gw.status.Running? ==> outcome.value.gw.beat == gw.beat
  {
  }

  lemma SurvivorStep(s: System, step: Step, lim: Limits, dead: nat, t: Time, g: nat, user: string)
    requires TakeoverInv(s, lim, dead, t, g, user) && Timely(s, lim) && Synchronous(step) && Next(s, step).Some?
    requires Survives(Next(s, step).value, dead, t, g, user) && g != dead
    ensures var s' := Next(s, step).value;
            Names(s.users, user, s.gateways[dead].node) && Names(s'.users, user, s.gateways[dead].node) ==>
              NotTakenYet(s'.gateways[g].beat, user, Due(t, lim), lim)
  {
    var gw := s.gateways[g];
    if Names(s.users, user, s.gateways[dead].node) && !step.Tick? && !step.SetFlags? && step.g == g {
      if step.Pulse? {
        assert user in ConnectedUserIds(gw) && OnTime(gw, s.clock, lim) && Stamped(gw, s.clock);
        assert RegistrationBound(s.nodes, s.gateways[dead], s.clock);
        SurvivorBeat(s.clock, s.users, s.nodes, gw, step.pulse, lim, Due(t, lim), user, s.gateways[dead].node);
      } else {
        OnlyBeatsMoveTheLoop(s.clock, s.users, s.nodes, gw, step);
      }
    }
  }

  /** A statement that a crash left behind lands too early to be missed. */
  lemma RevivedLater(s: System, step: Step, lim: Limits, dead: nat, t: Time, g: nat, user: string)
    requires Next(s, step).Some? && TimeInv(Next(s, step).value, lim) && Survives(Next(s, step).value, dead, t, g, user)
    requires dead in s.gateways
    ensures var s' := Next(s, step).value;
            s.clock <= t + lim.statement && !Names(s.users, user, s.gateways[dead].node)
                && Names(s'.users, user, s.gateways[dead].node) ==>
              NotTakenYet(s'.gateways[g].beat, user, Due(t, lim), lim)
  {
    var s' := Next(s, step).value;
    if !step.Tick? && !step.SetFlags? {
      assert Stamped(s'.gateways[g], s'.clock) && s'.clock == s.clock;
      if s.clock <= Due(t, lim) {
        EarlyIsNotTaken(s'.gateways[g].beat, s'.clock, user, Due(t, lim), lim);
      }
    }
  }

  lemma StepKeepsTaking(s: System, step: Step, lim: Limits, dead: nat, t: Time, g: nat, user: string)
    requires TakeoverInv(s, lim, dead, t, g, user) && Timely(s, lim) && Synchronous(step) && Next(s, step).Some?
    requires Survives(Next(s, step).value, dead, t, g, user) && g != dead
    requires TimeInv(Next(s, step).value, lim)
    ensures Taking(Next(s, step).value, lim, dead, t, g, user)
  {
    NamesNotRevived(s, step, lim, dead, t, g, user);
    SurvivorStep(s, step, lim, dead, t, g, user);
    RevivedLater(s, step, lim, dead, t, g, user);
  }

  lemma StepKeepsTakeoverInv(s: System, step: Step, lim: Limits, dead: nat, t: Time, g: nat, user: string)
    requires TakeoverInv(s, lim, dead, t, g, user) && Timely(s, lim) && Synchronous(step) && Next(s, step).Some?
    requires Survives(Next(s, step).value, dead, t, g, user) && g != dead
    ensures TakeoverInv(Next(s, step).value, lim, dead, t, g, user)
  {
    StepKeepsTimeInv(s, step, lim);
    StepKeepsNodeInv(s, step);
    StepKeepsTaking(s, step, lim, dead, t, g, user);
  }

  lemma AtTheCrash(states: seq<System>, steps: seq<Step>, lim: Limits, c: nat, dead: nat, g: nat, user: string)
    requires TimedRun(states, steps, lim) && c < |states| && Survives(states[c], dead, states[c].clock, g, user)
    ensures TakeoverInv(states[c], lim, dead, states[c].clock, g, user)
  {
    RunKeepsTimeInv(states, steps, lim, c);
    InitHasNodeInv(states[0]);
    RunKeepsNodeInv(states, steps, c);
    assert Stamped(states[c].gateways[g], states[c].clock) && Stamped(states[c].gateways[dead], states[c].clock);
    EarlyIsNotTaken(states[c].gateways[g].beat, states[c].clock, user, Due(states[c].clock, lim), lim);
  }

  ghost predicate SurvivesDuring(states: seq<System>, c: nat, i: nat, dead: nat, g: nat, user: string)
    requires c <= i < |states|
  {
    forall k | c <= k <= i :: Survives(states[k], dead, states[c].clock, g, user)
  }

  lemma OneMoreState(states: seq<System>, steps: seq<Step>, lim: Limits, c: nat, i: nat, last: nat, dead: nat,
      g: nat, user: string)
    requires TimedRun(states, steps, lim) && c < i <= last < |states| && g != dead
    requires SurvivesDuring(states, c, last, dead, g, user)
    requires TakeoverInv(states[i - 1], lim, dead, states[c].clock, g, user)
    ensures TakeoverInv(states[i], lim, dead, states[c].clock, g, user)
  {
    assert Next(states[i - 1], steps[i - 1]) == Some(states[i]);
    assert Timely(states[i - 1], lim) && Synchronous(steps[i - 1])
        && Survives(states[i], dead, states[c].clock, g, user);
    StepKeepsTakeoverInv(states[i - 1], steps[i - 1], lim, dead, states[c].clock, g, user);
  }

  lemma {:induction false} TakeoverRun(states: seq<System>, steps: seq<Step>, lim: Limits, c: nat, i: nat,
      last: nat, dead: nat, g: nat, user: string)
    requires TimedRun(states, steps, lim) && c <= i <= last < |states| && g != dead
    requires SurvivesDuring(states, c, last, dead, g, user)
    ensures TakeoverInv(states[i], lim, dead, states[c].clock, g, user)
  {
    if i == c {
      AtTheCrash(states, steps, lim, c, dead, g, user);
    } else {
      TakeoverRun(states, steps, lim, c, i - 1, last, dead, g, user);
      OneMoreState(states, steps, lim, c, i, last, dead, g, user);
    }
  }

  /**
   If a node crashes and another mesh node holds the user from then on, the row does not name
   the crashed node any later than 90 seconds, or one statement if that is longer, one period
   and one statement after the crash.
   */
  lemma CrashTakeoverBound(states: seq<System>, steps: seq<Step>, lim: Limits, c: nat, i: nat, dead: nat, g: nat,
      user: string)
    requires TimedRun(states, steps, lim) && c <= i < |states| && g != dead
    requires SurvivesDuring(states, c, i, dead, g, user) && dead in states[i].gateways
    requires states[i].clock > Due(states[c].clock, lim) + Period(lim) + lim.statement
    ensures !Names(states[i].users, user, states[i].gateways[dead].node)
  {
    TakeoverRun(states, steps, lim, c, i, i, dead, g, user);
    assert OnTime(states[i].gateways[g], states[i].clock, lim);
  }

  lemma CrashWithLogin(s0: System, s: System) returns (t: System)
    requires Reaches(s0, s) && Visited(s, map[], map[])
    ensures Reaches(s0, t) && t.users == s.users && 0 in t.gateways
    ensures t.gateways[0].node == "n0" && t.gateways[0].status.Crashed?
    ensures 0 in t.gateways[0].logins && t.gateways[0].logins[0] == Writing("ann", 1)
  {
    t := ReachesNext(s0, s, Log(0, LoginIssue(0, "ann")));
    assert t.gateways[0].status.Running? && t.gateways[0].logins[0] == Writing("ann", 1);
    t := ReachesNext(s0, t, Life(0, Crash));
  }

  /** A login write that was in flight when its node crashed can name the dead node afterwards. */
  lemma NamedAfterTheCrash() returns (s: System, crashed: System, later: System)
    ensures Init(s) && Reaches(s, crashed) && Next(crashed, Log(0, LoginLand(0))) == Some(later)
    ensures 0 in crashed.gateways && crashed.gateways[0].status.Crashed?
    ensures !Names(crashed.users, "ann", crashed.gateways[0].node)
    ensures Names(later.users, "ann", crashed.gateways[0].node)
  {
    var t;
    s, t := Boot();
    crashed := CrashWithLogin(s, t);
    later := Next(crashed, Log(0, LoginLand(0))).value;
  }
}
