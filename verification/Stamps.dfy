/** Where the time stamps in the user table come from: each is a moment at which some node sent that very statement. */
module Stamps {
  import opened Common
  import opened UserTable
  import opened Presence

  /** The step sends a statement that will put this stamp on the user's row, or is a background write that does. */
  predicate Sends(s: System, step: Step, g: nat, user: string, stamp: Time) {
    || (step == Pulse(g, BeatIssue) && s.clock == stamp)
    || (step.Log? && step.g == g && step.login.LoginIssue? && step.login.user == user && s.clock == stamp)
    || (step.Log? && step.g == g && step.login.BackgroundLand? && step.login.stamp == stamp && g in s.gateways
        && step.login.task in s.gateways[g].logins && s.gateways[g].logins[step.login.task].user == user)
  }

  /** Some earlier step of the node sent it. */
  predicate WasSent(states: seq<System>, steps: seq<Step>, i: nat, g: nat, user: string, stamp: Time)
    requires i < |states| == |steps| + 1
  {
    exists j | 0 <= j < i :: Sends(states[j], steps[j], g, user, stamp)
  }

  lemma SentBefore(states: seq<System>, steps: seq<Step>, i: nat, g: nat, user: string, stamp: Time)
    requires i + 1 < |states| == |steps| + 1 && WasSent(states, steps, i, g, user, stamp)
    ensures WasSent(states, steps, i + 1, g, user, stamp)
  {
    var j :| 0 <= j < i && Sends(states[j], steps[j], g, user, stamp);
  }

  /** A statement in flight carries the moment it was sent. */
  predicate InFlightSound(states: seq<System>, steps: seq<Step>, i: nat, g: nat, gw: Gateway)
    requires i < |states| == |steps| + 1
  {
    && (forall task | task in gw.logins && gw.logins[task].Writing? ::
          WasSent(states, steps, i, g, gw.logins[task].user, gw.logins[task].stamp))
    && (gw.beat.Issued? ==> forall user | user in gw.beat.batch :: WasSent(states, steps, i, g, user, gw.beat.stamp))
  }

  /** The row's stamp is the one it had at first, or one that some node sent for it. */
  predicate RowSound(states: seq<System>, steps: seq<Step>, i: nat, user: string)
    requires i < |states| == |steps| + 1
  {
    user in states[i].users ==>
      || (user in states[0].users && states[i].users[user].onlineAt == states[0].users[user].onlineAt)
      || exists g | g in states[i].gateways :: WasSent(states, steps, i, g, user, states[i].users[user].onlineAt)
  }

  /** A login write that is in flight after a step was before, or is sent by it. */
  lemma WriteComesFrom(clock: Time, users: Users, nodes: Nodes, gw: Gateway, step: Step, task: nat)
    requires LocalStep(clock, users, nodes, gw, step).Some?
    ensures var gw' := LocalStep(clock, users, nodes, gw, step).value.gw;
            task in gw'.logins && gw'.logins[task].Writing? ==>
              || (task in gw.logins && gw.logins[task] == gw'.logins[task])
              || (step.Log? && step.login.LoginIssue? && gw'.logins[task] == Writing(step.login.user, clock))
  {
    match step
    case Log(_, action) => assert LoginStep(clock, users, nodes, gw, action).Some?;
    case Rel(_, action) => assert ReleaseStep(users, nodes, gw, action).Some?;
    case Pulse(_, action) => assert BeatStep(clock, users, nodes, gw, action).Some?;
    case _ =>
  }

  /** So is a heartbeat. */
  lemma BeatComesFrom(clock: Time, users: Users, nodes: Nodes, gw: Gateway, step: Step)
    requires LocalStep(clock, users, nodes, gw, step).Some?
    ensures var gw' := LocalStep(clock, users, nodes, gw, step).value.gw;
            gw'.beat.Issued? ==>
              gw.beat == gw'.beat || (step.Pulse? && step.pulse.BeatIssue? && gw'.beat.stamp == clock)
  {
    match step
    case Log(_, action) => assert LoginStep(clock, users, nodes, gw, action).Some?;
    case Rel(_, action) => assert ReleaseStep(users, nodes, gw, action).Some?;
    case Pulse(_, action) => assert BeatStep(clock, users, nodes, gw, action).Some?;
    case _ =>
  }

  /** What a step may do to a row's stamp: leave it, or put on it the stamp of a statement that lands. */
  lemma StampComesFrom(clock: Time, users: Users, nodes: Nodes, gw: Gateway, step: Step, user: string)
    requires LocalStep(clock, users, nodes, gw, step).Some?
    requires user in LocalStep(clock, users, nodes, gw, step).value.users
    ensures var stamp := LocalStep(clock, users, nodes, gw, step).value.users[user].onlineAt;
            || (user in users && users[user].onlineAt == stamp)
            || (step.Pulse? && step.pulse.BeatLand? && gw.beat.Issued? && user in gw.beat.batch
                && gw.beat.stamp == stamp)
            || (step.Log? && step.login.LoginLand? && step.login.task in gw.logins
                && gw.logins[step.login.task] == Writing(user, stamp))
            || (step.Log? && step.login.BackgroundLand? && step.login.task in gw.logins
                && gw.logins[step.login.task] == Background(user) && step.login.stamp == stamp)
  {
    match step
    case Log(_, action) => assert LoginStep(clock, users, nodes, gw, action).Some?;
    case Rel(_, action) => assert ReleaseStep(users, nodes, gw, action).Some?;
    case Pulse(_, action) => assert BeatStep(clock, users, nodes, gw, action).Some?;
    case _ =>
  }

  /** What the step sends is sent from the next state on. */
  lemma SentNow(states: seq<System>, steps: seq<Step>, i: nat, g: nat, user: string, stamp: Time)
    requires i + 1 < |states| == |steps| + 1 && Sends(states[i], steps[i], g, user, stamp)
    ensures WasSent(states, steps, i + 1, g, user, stamp)
  {
  }

  lemma KeptInFlight(states: seq<System>, steps: seq<Step>, i: nat, g: nat, gw: Gateway)
    requires i + 1 < |states| == |steps| + 1 && InFlightSound(states, steps, i, g, gw)
    ensures InFlightSound(states, steps, i + 1, g, gw)
  {
    var next := i + 1;
    forall task | task in gw.logins && gw.logins[task].Writing?
      ensures WasSent(states, steps, next, g, gw.logins[task].user, gw.logins[task].stamp)
    {
      SentBefore(states, steps, i, g, gw.logins[task].user, gw.logins[task].stamp);
    }
    if gw.beat.Issued? {
      forall user | user in gw.beat.batch ensures WasSent(states, steps, next, g, user, gw.beat.stamp) {
        SentBefore(states, steps, i, g, user, gw.beat.stamp);
      }
    }
  }

  lemma OwnInFlight(states: seq<System>, steps: seq<Step>, i: nat, g: nat, gw': Gateway)
    requires i + 1 < |states| == |steps| + 1 && g in states[i].gateways
    requires InFlightSound(states, steps, i, g, states[i].gateways[g])
    requires !steps[i].Tick? && !steps[i].SetFlags? && steps[i].g == g
    requires var s := states[i];
             var outcome := LocalStep(s.clock, s.users, s.nodes, s.gateways[g], steps[i]);
             outcome.Some? && outcome.value.gw == gw'
    ensures InFlightSound(states, steps, i + 1, g, gw')
  {
    var s, gw, step, next := states[i], states[i].gateways[g], steps[i], i + 1;
    KeptInFlight(states, steps, i, g, gw);
    forall task | task in gw'.logins && gw'.logins[task].Writing?
      ensures WasSent(states, steps, next, g, gw'.logins[task].user, gw'.logins[task].stamp)
    {
      WriteComesFrom(s.clock, s.users, s.nodes, gw, step, task);
      if !(task in gw.logins && gw.logins[task] == gw'.logins[task]) {
        SentNow(states, steps, i, g, gw'.logins[task].user, gw'.logins[task].stamp);
      }
    }
    BeatComesFrom(s.clock, s.users, s.nodes, gw, step);
    if gw'.beat.Issued? && gw.beat != gw'.beat {
      forall user | user in gw'.beat.batch ensures WasSent(states, steps, next, g, user, gw'.beat.stamp) {
        SentNow(states, steps, i, g, user, gw'.beat.stamp);
      }
    }
  }

  lemma {:induction false} InFlightWasSent(states: seq<System>, steps: seq<Step>, i: nat, g: nat)
    requires IsRun(states, steps) && Init(states[0]) && i < |states| && g in states[i].gateways
    ensures InFlightSound(states, steps, i, g, states[i].gateways[g])
  {
    if i > 0 {
      var s, step := states[i - 1], steps[i - 1];
      assert Next(s, step) == Some(states[i]);
      InFlightWasSent(states, steps, i - 1, g);
      if step.Tick? || step.SetFlags? || step.g != g {
        KeptInFlight(states, steps, i - 1, g, s.gateways[g]);
      } else {
        OwnInFlight(states, steps, i - 1, g, states[i].gateways[g]);
      }
    }
  }

  /** A stamp that a step leaves alone is as sound as before. */
  lemma KeptRow(states: seq<System>, steps: seq<Step>, i: nat, user: string)
    requires IsRun(states, steps) && i + 1 < |states| && RowSound(states, steps, i, user) && user in states[i].users
    requires states[i].gateways.Keys == states[i + 1].gateways.Keys
    requires user in states[i + 1].users && states[i + 1].users[user].onlineAt == states[i].users[user].onlineAt
    ensures RowSound(states, steps, i + 1, user)
  {
    var stamp := states[i].users[user].onlineAt;
    if g: nat :| g in states[i].gateways && WasSent(states, steps, i, g, user, stamp) {
      SentBefore(states, steps, i, g, user, stamp);
    }
  }

  lemma LandedRow(states: seq<System>, steps: seq<Step>, i: nat, user: string)
    requires IsRun(states, steps) && Init(states[0]) && i < |steps| && RowSound(states, steps, i, user)
    requires !steps[i].Tick? && !steps[i].SetFlags? && user in states[i + 1].users
    requires states[i].gateways.Keys == states[i + 1].gateways.Keys && steps[i].g in states[i].gateways
    requires var s := states[i]; var outcome := LocalStep(s.clock, s.users, s.nodes, s.gateways[steps[i].g], steps[i]);
             outcome.Some? && outcome.value.users == states[i + 1].users
    ensures RowSound(states, steps, i + 1, user)
  {
    var s, step, g, stamp := states[i], steps[i], steps[i].g, states[i + 1].users[user].onlineAt;
    StampComesFrom(s.clock, s.users, s.nodes, s.gateways[g], step, user);
    InFlightWasSent(states, steps, i, g);
    if user in s.users && s.users[user].onlineAt == stamp {
      KeptRow(states, steps, i, user);
    } else if step.Log? && step.login.BackgroundLand? {
      SentNow(states, steps, i, g, user, stamp);
    } else {
      SentBefore(states, steps, i, g, user, stamp);
    }
  }

  /**
   In every run a row's stamp is the one it started with or the moment at which some node sent a
   heartbeat, or sent a login write of that user, or the stamp of a background write of that user:
   never the moment a statement took effect, and never another user's login.
   */
  lemma {:induction false} StampsWereSent(states: seq<System>, steps: seq<Step>, i: nat, user: string)
    requires IsRun(states, steps) && Init(states[0]) && i < |states|
    ensures RowSound(states, steps, i, user)
  {
    if i > 0 && user in states[i].users {
      var s, step := states[i - 1], steps[i - 1];
      assert Next(s, step) == Some(states[i]);
      assert s.gateways.Keys == states[i].gateways.Keys;
      StampsWereSent(states, steps, i - 1, user);
      if step.Tick? || step.SetFlags? {
        KeptRow(states, steps, i - 1, user);
      } else {
        LandedRow(states, steps, i - 1, user);
      }
    }
  }

  // How often a node sends.

  /** The next heartbeat of the node is at least a whole interval after this moment. */
  predicate NotBefore(s: System, g: nat, since: Time) {
    && g in s.gateways && since <= s.clock
    && match s.gateways[g].beat
       case Waiting(wake) => since + HEARTBEAT_INTERVAL <= wake
       case Snapped(_, _) => since + HEARTBEAT_INTERVAL <= s.clock
       case _ => true
  }

  lemma BeatKeepsNotBefore(clock: Time, users: Users, nodes: Nodes, gw: Gateway, action: BeatAction, since: Time)
    requires BeatStep(clock, users, nodes, gw, action).Some? && since <= clock
    requires gw.beat.Waiting? ==> since + HEARTBEAT_INTERVAL <= gw.beat.wake
    ensures match BeatStep(clock, users, nodes, gw, action).value.gw.beat
            case Waiting(wake) => since + HEARTBEAT_INTERVAL <= wake
            case Snapped(_, _) => since + HEARTBEAT_INTERVAL <= clock
            case _ => true
  {
  }

  lemma StepKeepsNotBefore(s: System, step: Step, g: nat, since: Time)
    requires Next(s, step).Some? && NotBefore(s, g, since)
    ensures NotBefore(Next(s, step).value, g, since)
  {
    if step.Pulse? && step.g == g {
      BeatKeepsNotBefore(s.clock, s.users, s.nodes, s.gateways[g], step.pulse, since);
    } else if step.Log? && step.g == g {
      assert LoginStep(s.clock, s.users, s.nodes, s.gateways[g], step.login).Some?;
    } else if step.Rel? && step.g == g {
      assert ReleaseStep(s.users, s.nodes, s.gateways[g], step.release).Some?;
    }
  }

  lemma OneMoreInterval(states: seq<System>, steps: seq<Step>, j: nat, g: nat, since: Time)
    requires IsRun(states, steps) && 0 < j < |states|
    requires NotBefore(states[j - 1], g, since) || (steps[j - 1] == Pulse(g, BeatIssue) && since == states[j - 1].clock)
    ensures NotBefore(states[j], g, since)
  {
    assert Next(states[j - 1], steps[j - 1]) == Some(states[j]);
    if NotBefore(states[j - 1], g, since) {
      StepKeepsNotBefore(states[j - 1], steps[j - 1], g, since);
    }
  }

  lemma {:induction false} StaysNotBefore(states: seq<System>, steps: seq<Step>, i: nat, j: nat, g: nat)
    requires IsRun(states, steps) && i < j < |states| && steps[i] == Pulse(g, BeatIssue)
    ensures NotBefore(states[j], g, states[i].clock)
    decreases j
  {
    if i < j - 1 {
      StaysNotBefore(states, steps, i, j - 1, g);
    }
    OneMoreInterval(states, steps, j, g, states[i].clock);
  }

  /** Two heartbeats of a node are never less than an interval apart, also if it was restarted between them. */
  lemma BeatsAreApart(states: seq<System>, steps: seq<Step>, i: nat, j: nat, g: nat)
    requires IsRun(states, steps) && i < j < |steps| && steps[i] == steps[j] == Pulse(g, BeatIssue)
    ensures states[i].clock + HEARTBEAT_INTERVAL <= states[j].clock
  {
    StaysNotBefore(states, steps, i, j, g);
    assert Next(states[j], steps[j]) == Some(states[j + 1]);
  }
}
