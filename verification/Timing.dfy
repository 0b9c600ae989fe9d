/**
 Timed presence. Timers fire exactly, a presence statement takes at most `statement`
 seconds from call to return and takes effect somewhere in between, a release pass takes
 at most `release`, and a login is registered at most `login` after its write was stamped.
 */
module Timing {
  import opened Common
  import opened UserTable
  import opened Presence

  datatype Limits = Limits(statement: nat, release: nat, login: nat)

  /** Nothing on this gateway is overdue. */
  predicate OnTime(gw: Gateway, clock: Time, lim: Limits) {
    && (MayLand(gw) ==> forall task | task in gw.logins && gw.logins[task].Writing? ::
        clock <= gw.logins[task].stamp + lim.statement)
    && (MayLand(gw) && gw.beat.Issued? ==> clock <= gw.beat.at + lim.statement)
    && (gw.status.Running? ==>
          && (forall task | task in gw.logins && gw.logins[task].Written? :: clock <= gw.logins[task].stamp + lim.login)
          && match gw.beat
             case Waiting(wake) => clock <= wake
             case Snapped(_, at) => clock <= at + lim.statement
             case Issued(_, _, _) => true
             case Landed(_, at) => clock <= at + lim.statement
             case Releasing(_, _, since) => clock <= since + lim.release)
  }

  predicate Timely(s: System, lim: Limits) {
    forall g | g in s.gateways :: OnTime(s.gateways[g], s.clock, lim)
  }

  /** Logins wait for their write, and no heartbeat statement fails. */
  predicate Synchronous(step: Step) {
    && (step.Log? ==> !step.login.CachedLogin?)
    && (step.Pulse? ==> !step.pulse.BeatFails?)
  }

  /** Nothing carries a stamp from the future, or the zero stamp, and no login is a cached one. */
  predicate Stamped(gw: Gateway, clock: Time) {
    && (forall task | task in gw.logins ::
          (gw.logins[task].Writing? || gw.logins[task].Written?) && ZERO_TIME < gw.logins[task].stamp <= clock)
    && (MayLand(gw) ==> BeatStamped(gw.beat, clock))
  }

  predicate BeatStamped(beat: Beat, clock: Time) {
    match beat
    case Waiting(wake) => wake <= clock + HEARTBEAT_INTERVAL
    case Snapped(_, at) => ZERO_TIME < at <= clock
    case Issued(_, at, stamp) => ZERO_TIME < at <= stamp <= clock
    case Landed(_, at) => at <= clock
    case Releasing(_, _, since) => since <= clock
  }

  /** The latest moment at which a heartbeat of this gateway that includes the connected user lands. */
  function NextLanding(beat: Beat, user: string, lim: Limits): Time {
    var cycle := lim.release + HEARTBEAT_INTERVAL + lim.statement;
    match beat
    case Waiting(wake) => wake + lim.statement
    case Snapped(batch, at) => if user in batch then at + lim.statement else at + lim.statement + cycle
    case Issued(batch, at, _) => if user in batch then at + lim.statement else at + lim.statement + cycle
    case Landed(_, at) => at + lim.statement + cycle
    case Releasing(_, _, since) => since + cycle
  }

  /** How old a stamp can get before it is replaced. */
  function Margin(lim: Limits): Time {
    HEARTBEAT_INTERVAL + lim.login + 3 * lim.statement + lim.release
  }

  predicate Seen(users: Users, user: string, since: Time) {
    user in users && ZERO_TIME < users[user].onlineAt && since <= users[user].onlineAt
  }

  predicate ConnectedSeen(users: Users, conns: map<string, nat>, beat: Beat, lim: Limits) {
    forall user | user in conns && conns[user] > 0 && user != "" ::
        Seen(users, user, NextLanding(beat, user, lim) - Margin(lim))
  }

  predicate WrittenSeen(users: Users, logins: map<nat, Login>, lim: Limits) {
    forall task | task in logins && logins[task].Written? ::
        Seen(users, logins[task].user, logins[task].stamp - lim.statement)
  }

  /** Every connected user is seen again before their stamp is too old. */
  predicate WellSeen(users: Users, gw: Gateway, lim: Limits) {
    gw.status.Running? ==> ConnectedSeen(users, gw.conns, gw.beat, lim) && WrittenSeen(users, gw.logins, lim)
  }

  predicate TimeInv(s: System, lim: Limits) {
    && ZERO_TIME < s.clock
    && (forall g | g in s.gateways :: Stamped(s.gateways[g], s.clock) && WellSeen(s.users, s.gateways[g], lim))
  }

  /** What any one step can do to a stamp: leave it, or replace it by one at most a statement old. */
  predicate Freshens(users: Users, users': Users, oldest: Time) {
    forall user | user in users ::
      user in users' && (users'[user].onlineAt == users[user].onlineAt
          || (ZERO_TIME < users'[user].onlineAt && oldest <= users'[user].onlineAt))
  }

  lemma LoginFreshens(clock: Time, users: Users, nodes: Nodes, gw: Gateway, action: LoginAction, lim: Limits)
    requires Stamped(gw, clock) && OnTime(gw, clock, lim)
    ensures var outcome := LoginStep(clock, users, nodes, gw, action);
            outcome.Some? ==> Freshens(users, outcome.value.users, clock - lim.statement)
  {
  }

  lemma BeatFreshens(clock: Time, users: Users, nodes: Nodes, gw: Gateway, action: BeatAction, lim: Limits)
    requires Stamped(gw, clock) && OnTime(gw, clock, lim)
    ensures var outcome := BeatStep(clock, users, nodes, gw, action);
            outcome.Some? ==> Freshens(users, outcome.value.users, clock - lim.statement)
  {
  }

  lemma StepFreshens(clock: Time, users: Users, nodes: Nodes, gw: Gateway, step: Step, lim: Limits)
    requires Stamped(gw, clock) && OnTime(gw, clock, lim)
    ensures var outcome := LocalStep(clock, users, nodes, gw, step);
            outcome.Some? ==> Freshens(users, outcome.value.users, clock - lim.statement)
  {
    match step
    case Log(_, action) => LoginFreshens(clock, users, nodes, gw, action, lim);
    case Pulse(_, action) => BeatFreshens(clock, users, nodes, gw, action, lim);
    case _ =>
  }

  /** A gateway that took no step stays well seen when the rows are freshened, even by an older stamp. */
  lemma FreshenedStaysWellSeen(clock: Time, users: Users, users': Users, gw: Gateway, lim: Limits)
    requires Stamped(gw, clock) && WellSeen(users, gw, lim) && Freshens(users, users', clock - lim.statement)
    ensures WellSeen(users', gw, lim)
  {
  }

  lemma LoginKeepsStamped(clock: Time, users: Users, nodes: Nodes, gw: Gateway, action: LoginAction)
    requires ZERO_TIME < clock && Stamped(gw, clock) && !action.CachedLogin?
    ensures var outcome := LoginStep(clock, users, nodes, gw, action);
            outcome.Some? ==> Stamped(outcome.value.gw, clock)
  {
  }

  lemma BeatKeepsStamped(clock: Time, users: Users, nodes: Nodes, gw: Gateway, action: BeatAction)
    requires ZERO_TIME < clock && Stamped(gw, clock)
    ensures var outcome := BeatStep(clock, users, nodes, gw, action);
            outcome.Some? ==> Stamped(outcome.value.gw, clock)
  {
  }

  /** Wherever the heartbeat loop is, a connected user is seen within one statement and one whole cycle. */
  lemma LandingIsNear(gw: Gateway, user: string, clock: Time, lim: Limits)
    requires Stamped(gw, clock) && gw.status.Running?
    ensures NextLanding(gw.beat, user, lim) <= clock + Margin(lim) - lim.login - lim.statement
  {
  }

  /** The user of a login that is just registered was stamped by its own write, or overwritten by a slower one. */
  lemma JoinedIsSeen(clock: Time, users: Users, gw: Gateway, task: nat, lim: Limits)
    requires Stamped(gw, clock) && OnTime(gw, clock, lim) && WellSeen(users, gw, lim) && gw.status.Running?
    requires task in gw.logins && gw.logins[task].Written?
    ensures var user := gw.logins[task].user; Seen(users, user, NextLanding(gw.beat, user, lim) - Margin(lim))
  {
    LandingIsNear(gw, gw.logins[task].user, clock, lim);
  }

  lemma LoginKeepsWritten(clock: Time, users: Users, nodes: Nodes, gw: Gateway, action: LoginAction, lim: Limits)
    requires Stamped(gw, clock) && !action.CachedLogin?
    ensures var outcome := LoginStep(clock, users, nodes, gw, action);
            outcome.Some? && WrittenSeen(outcome.value.users, gw.logins, lim) ==>
                WrittenSeen(outcome.value.users, outcome.value.gw.logins, lim)
  {
  }

  lemma LoginKeepsWellSeen(clock: Time, users: Users, nodes: Nodes, gw: Gateway, action: LoginAction, lim: Limits)
    requires Stamped(gw, clock) && OnTime(gw, clock, lim) && WellSeen(users, gw, lim) && !action.CachedLogin?
    ensures var outcome := LoginStep(clock, users, nodes, gw, action);
            outcome.Some? ==> WellSeen(outcome.value.users, outcome.value.gw, lim)
  {
    var outcome := LoginStep(clock, users, nodes, gw, action);
    if outcome.Some? && gw.status.Running? {
      LoginFreshens(clock, users, nodes, gw, action, lim);
      FreshenedStaysWellSeen(clock, users, outcome.value.users, gw, lim);
      LoginKeepsWritten(clock, users, nodes, gw, action, lim);
      if action.AddConnection? {
        JoinedIsSeen(clock, users, gw, action.task, lim);
      }
    }
  }

  /** No step of the loop puts the next landing off, except a landing itself. */
  lemma BeatNeverPostpones(clock: Time, users: Users, nodes: Nodes, gw: Gateway, action: BeatAction, lim: Limits,
      user: string)
    requires Stamped(gw, clock) && OnTime(gw, clock, lim) && gw.status.Running? && !action.BeatFails?
    requires user in ConnectedUserIds(gw)
    ensures var outcome := BeatStep(clock, users, nodes, gw, action);
            outcome.Some? ==>
              || NextLanding(outcome.value.gw.beat, user, lim) <= NextLanding(gw.beat, user, lim)
              || (action.BeatLand? && user in gw.beat.batch)
  {
  }

  lemma LandedIsSeen(clock: Time, users: Users, nodes: Nodes, gw: Gateway, lim: Limits, user: string)
    requires Stamped(gw, clock) && gw.beat.Issued? && user in gw.beat.batch && user in users && MayLand(gw)
    ensures var outcome := BeatStep(clock, users, nodes, gw, BeatLand).value;
            Seen(outcome.users, user, NextLanding(outcome.gw.beat, user, lim) - Margin(lim))
  {
  }

  lemma BeatKeepsWellSeen(clock: Time, users: Users, nodes: Nodes, gw: Gateway, action: BeatAction, lim: Limits)
    requires Stamped(gw, clock) && OnTime(gw, clock, lim) && WellSeen(users, gw, lim) && !action.BeatFails?
    ensures var outcome := BeatStep(clock, users, nodes, gw, action);
            outcome.Some? ==> WellSeen(outcome.value.users, outcome.value.gw, lim)
  {
    var outcome := BeatStep(clock, users, nodes, gw, action);
    if outcome.Some? && gw.status.Running? {
      BeatFreshens(clock, users, nodes, gw, action, lim);
      FreshenedStaysWellSeen(clock, users, outcome.value.users, gw, lim);
      var users', gw' := outcome.value.users, outcome.value.gw;
      forall user | user in gw'.conns && gw'.conns[user] > 0 && user != ""
        ensures Seen(users', user, NextLanding(gw'.beat, user, lim) - Margin(lim))
      {
        assert Seen(users', user, NextLanding(gw.beat, user, lim) - Margin(lim));
        BeatNeverPostpones(clock, users, nodes, gw, action, lim, user);
        if action.BeatLand? && user in gw.beat.batch {
          LandedIsSeen(clock, users, nodes, gw, lim, user);
        }
      }
    }
  }

  lemma LifecycleKeepsTimed(clock: Time, users: Users, nodes: Nodes, gw: Gateway, action: Lifecycle, lim: Limits)
    requires Stamped(gw, clock) && WellSeen(users, gw, lim)
    ensures var outcome := LifecycleStep(clock, users, nodes, gw, action);
            outcome.Some? ==> Stamped(outcome.value.gw, clock) && WellSeen(outcome.value.users, outcome.value.gw, lim)
  {
  }

  lemma ReleaseKeepsTimed(clock: Time, users: Users, nodes: Nodes, gw: Gateway, action: ReleaseAction, lim: Limits)
    requires Stamped(gw, clock) && WellSeen(users, gw, lim)
    ensures var outcome := ReleaseStep(users, nodes, gw, action);
            outcome.Some? ==> Stamped(outcome.value.gw, clock) && WellSeen(outcome.value.users, outcome.value.gw, lim)
  {
  }

  lemma OwnStepKeepsTimed(clock: Time, users: Users, nodes: Nodes, gw: Gateway, step: Step, lim: Limits)
    requires ZERO_TIME < clock && Stamped(gw, clock) && OnTime(gw, clock, lim) && WellSeen(users, gw, lim)
    requires Synchronous(step)
    ensures var outcome := LocalStep(clock, users, nodes, gw, step);
            outcome.Some? ==> Stamped(outcome.value.gw, clock) && WellSeen(outcome.value.users, outcome.value.gw, lim)
  {
    match step
    case Life(_, action) => LifecycleKeepsTimed(clock, users, nodes, gw, action, lim);
    case Rel(_, action) => ReleaseKeepsTimed(clock, users, nodes, gw, action, lim);
    case Log(_, action) =>
      LoginKeepsStamped(clock, users, nodes, gw, action);
      LoginKeepsWellSeen(clock, users, nodes, gw, action, lim);
    case Pulse(_, action) =>
      BeatKeepsStamped(clock, users, nodes, gw, action);
      BeatKeepsWellSeen(clock, users, nodes, gw, action, lim);
    case _ =>
  }

  lemma StepKeepsTimeInv(s: System, step: Step, lim: Limits)
    requires TimeInv(s, lim) && Timely(s, lim) && Synchronous(step) && Next(s, step).Some?
    ensures TimeInv(Next(s, step).value, lim)
  {
    var s' := Next(s, step).value;
    if !step.Tick? && !step.SetFlags? {
      var gw := s.gateways[step.g];
      OwnStepKeepsTimed(s.clock, s.users, s.nodes, gw, step, lim);
      StepFreshens(s.clock, s.users, s.nodes, gw, step, lim);
      forall g | g in s.gateways && g != step.g
        ensures Stamped(s'.gateways[g], s'.clock) && WellSeen(s'.users, s'.gateways[g], lim)
      {
        FreshenedStaysWellSeen(s.clock, s.users, s'.users, s.gateways[g], lim);
      }
    }
  }

  lemma InitHasTimeInv(s: System, lim: Limits)
    requires Init(s)
    ensures TimeInv(s, lim)
  {
  }

  /** A run from the start, with synchronous logins, in which nothing is ever overdue. */
  predicate TimedRun(states: seq<System>, steps: seq<Step>, lim: Limits) {
    && IsRun(states, steps) && Init(states[0])
    && (forall k | 0 <= k < |states| :: Timely(states[k], lim))
    && (forall k | 0 <= k < |steps| :: Synchronous(steps[k]))
  }

  lemma {:induction false} RunKeepsTimeInv(states: seq<System>, steps: seq<Step>, lim: Limits, i: nat)
    requires TimedRun(states, steps, lim) && i < |states|
    ensures TimeInv(states[i], lim)
  {
    if i == 0 {
      InitHasTimeInv(states[0], lim);
    } else {
      RunKeepsTimeInv(states, steps, lim, i - 1);
      assert Next(states[i - 1], steps[i - 1]) == Some(states[i]);
      StepKeepsTimeInv(states[i - 1], steps[i - 1], lim);
    }
  }

  /** A connected user's stamp is never older than the margin. */
  lemma ConnectedIsRecent(s: System, lim: Limits, g: nat, user: string)
    requires TimeInv(s, lim) && Timely(s, lim)
    requires g in s.gateways && s.gateways[g].status.Running? && Connected(s.gateways[g], user) && user != ""
    ensures Seen(s.users, user, s.clock - Margin(lim))
  {
    var gw := s.gateways[g];
    assert Stamped(gw, s.clock) && WellSeen(s.users, gw, lim) && OnTime(gw, s.clock, lim);
    assert s.clock <= NextLanding(gw.beat, user, lim);
  }

  /** The user is online by the freshness test and listed by the SQL filter. */
  predicate Visible(s: System, user: string) {
    && user in s.users && IsHeartbeatFresh(s.users[user].onlineAt, s.clock)
    && user in ListOnlineUsers(s.users, s.clock - STALE_AFTER)
  }

  predicate ConnectedTo(s: System, g: nat, user: string) {
    g in s.gateways && s.gateways[g].status.Running? && Connected(s.gateways[g], user) && user != ""
  }

  /** Everyone connected anywhere is shown online. */
  ghost predicate ShownOnline(s: System) {
    forall g, user | ConnectedTo(s, g, user) :: Visible(s, user)
  }

  /**
   Within login + 3 * statement + release < 60 seconds, every connected user is shown online at
   every instant, even when a slower statement of another node overwrites a newer stamp.
   */
  lemma OnlineMargin(states: seq<System>, steps: seq<Step>, lim: Limits, i: nat)
    requires TimedRun(states, steps, lim) && i < |states|
    requires Margin(lim) < STALE_AFTER
    ensures ShownOnline(states[i])
  {
    RunKeepsTimeInv(states, steps, lim, i);
    assert Timely(states[i], lim);
    forall g, user | ConnectedTo(states[i], g, user) ensures Visible(states[i], user) {
      ConnectedIsRecent(states[i], lim, g, user);
    }
  }
}
