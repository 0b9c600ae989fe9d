/**
 The margin of the timed model is exact: whatever the limits, as soon as
 login + 3 * statement + release reaches 60 seconds there is a run in which a connected
 user is shown offline. The run: a slow heartbeat of node "m" overwrites the stamp of a
 login on node "n", and the login is registered right after "n" took its own snapshot.
 */
module Tightness {
  import opened Common
  import opened UserTable
  import opened Presence
  import opened Timing

  /** The state after a script of synchronous steps, if every step can be taken and nothing is ever overdue. */
  function Play(s: System, script: seq<Step>, lim: Limits): Option<System> {
    if script == [] then
      if Timely(s, lim) then Some(s) else None
    else
      var before := Play(s, script[..|script| - 1], lim);
      if before.None? then None
      else
        var step := script[|script| - 1];
        var after := Next(before.value, step);
        if after.Some? && Synchronous(step) && Timely(after.value, lim) then after else None
  }

  ghost predicate TimedReaches(s: System, t: System, lim: Limits) {
    exists script :: Play(s, script, lim) == Some(t)
  }

  lemma PlayMore(s: System, script: seq<Step>, t: System, step: Step, next: System, lim: Limits)
    requires Play(s, script, lim) == Some(t) && Synchronous(step) && Next(t, step) == Some(next) && Timely(next, lim)
    ensures Play(s, script + [step], lim) == Some(next)
  {
    var longer := script + [step];
    assert longer[..|longer| - 1] == script && longer[|longer| - 1] == step;
  }

  lemma TimedNext(s: System, t: System, step: Step, lim: Limits) returns (next: System)
    requires TimedReaches(s, t, lim) && Synchronous(step) && Next(t, step).Some? && Timely(Next(t, step).value, lim)
    ensures next == Next(t, step).value && TimedReaches(s, next, lim)
  {
    next := Next(t, step).value;
    var script :| Play(s, script, lim) == Some(t);
    PlayMore(s, script, t, step, next, lim);
  }

  /** When node "m" starts, and when it sends the heartbeat that turns out slow. */
  const EARLY: Time := 70
  const SLOW_STAMP: Time := EARLY + HEARTBEAT_INTERVAL

  /** Every timely state that a synchronous step leads to is in the set as well. */
  ghost predicate Closed(reach: iset<System>, lim: Limits) {
    forall t, step | t in reach && Synchronous(step) && Next(t, step).Some? && Timely(Next(t, step).value, lim) ::
      Next(t, step).value in reach
  }

  /** A mesh of two nodes, "n" and "m", can be brought into this state. */
  ghost predicate Pair(reach: iset<System>, t: System, lim: Limits, clock: Time, users: Users, n: Gateway, m: Gateway) {
    Closed(reach, lim) && t in reach && t.clock == clock && t.users == users && t.gateways == map[0 := n, 1 := m]
  }

  lemma PairTick(reach: iset<System>, t: System, lim: Limits, to: Time, users: Users, n: Gateway, m: Gateway)
    returns (t': System)
    requires Pair(reach, t, lim, t.clock, users, n, m) && t.clock <= to && OnTime(n, to, lim) && OnTime(m, to, lim)
    ensures Pair(reach, t', lim, to, users, n, m)
  {
    t' := Next(t, Tick(to)).value;
  }

  lemma TimelyPair(t: System, lim: Limits, n: Gateway, m: Gateway)
    requires t.gateways == map[0 := n, 1 := m] && OnTime(n, t.clock, lim) && OnTime(m, t.clock, lim)
    ensures Timely(t, lim)
  {
  }

  function Applied(t: System, g: nat, outcome: Outcome): System {
    t.(users := outcome.users, nodes := outcome.nodes, gateways := t.gateways[g := outcome.gw])
  }

  lemma AppliedPair(t: System, outcome: Outcome, n: Gateway, m: Gateway)
    requires t.gateways == map[0 := n, 1 := m]
    ensures Applied(t, 0, outcome).gateways == map[0 := outcome.gw, 1 := m]
    ensures Applied(t, 1, outcome).gateways == map[0 := n, 1 := outcome.gw]
  {
  }

  /** A local step that is taken in time leads to a state of the set. */
  lemma TimedApplied(reach: iset<System>, t: System, lim: Limits, step: Step, outcome: Outcome)
    requires Closed(reach, lim) && t in reach
    requires !step.Tick? && !step.SetFlags? && step.g in t.gateways && Synchronous(step)
    requires LocalStep(t.clock, t.users, t.nodes, t.gateways[step.g], step) == Some(outcome)
    requires Timely(Applied(t, step.g, outcome), lim)
    ensures Applied(t, step.g, outcome) in reach
  {
    assert Next(t, step) == Some(Applied(t, step.g, outcome));
  }

  /** A step of "n" whose outcome is `users'` and `n'`. */
  lemma StepOfN(reach: iset<System>, t: System, lim: Limits, step: Step, users: Users, n: Gateway, m: Gateway,
      outcome: Outcome)
    returns (t': System)
    requires Pair(reach, t, lim, t.clock, users, n, m) && !step.Tick? && !step.SetFlags? && step.g == 0
    requires Synchronous(step)
    requires LocalStep(t.clock, users, t.nodes, n, step) == Some(outcome)
    requires OnTime(outcome.gw, t.clock, lim) && OnTime(m, t.clock, lim)
    ensures Pair(reach, t', lim, t.clock, outcome.users, outcome.gw, m) && t'.nodes == outcome.nodes
  {
    AppliedPair(t, outcome, n, m);
    t' := Applied(t, 0, outcome);
    TimelyPair(t', lim, outcome.gw, m);
    TimedApplied(reach, t, lim, step, outcome);
  }

  lemma LogOfN(reach: iset<System>, t: System, lim: Limits, action: LoginAction, users: Users, n: Gateway, m: Gateway,
      users': Users, n': Gateway)
    returns (t': System)
    requires Pair(reach, t, lim, t.clock, users, n, m) && !action.CachedLogin?
    requires LoginStep(t.clock, users, t.nodes, n, action) == Some(Outcome(users', t.nodes, n'))
    requires OnTime(n', t.clock, lim) && OnTime(m, t.clock, lim)
    ensures Pair(reach, t', lim, t.clock, users', n', m) && t'.nodes == t.nodes
  {
    t' := StepOfN(reach, t, lim, Log(0, action), users, n, m, Outcome(users', t.nodes, n'));
  }

  lemma PulseOfN(reach: iset<System>, t: System, lim: Limits, action: BeatAction, users: Users, n: Gateway, m: Gateway,
      users': Users, n': Gateway)
    returns (t': System)
    requires Pair(reach, t, lim, t.clock, users, n, m) && !action.BeatFails?
    requires BeatStep(t.clock, users, t.nodes, n, action) == Some(Outcome(users', t.nodes, n'))
    requires OnTime(n', t.clock, lim) && OnTime(m, t.clock, lim)
    ensures Pair(reach, t', lim, t.clock, users', n', m) && t'.nodes == t.nodes
  {
    t' := StepOfN(reach, t, lim, Pulse(0, action), users, n, m, Outcome(users', t.nodes, n'));
  }

  /** A step of "m" whose outcome is `users'` and `m'`. */
  lemma StepOfM(reach: iset<System>, t: System, lim: Limits, step: Step, users: Users, n: Gateway, m: Gateway,
      outcome: Outcome)
    returns (t': System)
    requires Pair(reach, t, lim, t.clock, users, n, m) && !step.Tick? && !step.SetFlags? && step.g == 1
    requires Synchronous(step)
    requires LocalStep(t.clock, users, t.nodes, m, step) == Some(outcome)
    requires OnTime(n, t.clock, lim) && OnTime(outcome.gw, t.clock, lim)
    ensures Pair(reach, t', lim, t.clock, outcome.users, n, outcome.gw) && t'.nodes == outcome.nodes
  {
    AppliedPair(t, outcome, n, m);
    t' := Applied(t, 1, outcome);
    TimelyPair(t', lim, n, outcome.gw);
    TimedApplied(reach, t, lim, step, outcome);
  }

  function Node(id: string, beat: Beat, conns: map<string, nat>, logins: map<nat, Login>): Gateway {
    Gateway(id, Running, conns, logins, map[], beat, None)
  }

  function Off(id: string): Gateway {
    Gateway(id, Stopped, map[], map[], map[], Waiting(0), None)
  }

  /** Crashed with nothing in flight: never overdue. */
  predicate Gone(gw: Gateway) {
    gw.status.Crashed? && gw.logins == map[] && !gw.beat.Issued?
  }

  /** With nobody connected the loop of "n" just waits again, any number of times. */
  lemma {:induction false} IdleCycles(reach: iset<System>, t: System, lim: Limits, wake: Time, k: nat, users: Users,
      stamp: Time, m: Gateway)
    returns (t': System)
    requires t.clock <= wake && wake + k * HEARTBEAT_INTERVAL <= stamp + lim.login && Gone(m)
    requires Pair(reach, t, lim, t.clock, users, Node("n", Waiting(wake), map[], map[0 := Written("u", stamp)]), m)
    ensures var last := wake + k * HEARTBEAT_INTERVAL;
            Pair(reach, t', lim, last, users, Node("n", Waiting(last), map[], map[0 := Written("u", stamp)]), m)
    decreases k
  {
    var n := Node("n", Waiting(wake), map[], map[0 := Written("u", stamp)]);
    t' := PairTick(reach, t, lim, wake, users, n, m);
    if k > 0 {
      var next := Node("n", Waiting(wake + HEARTBEAT_INTERVAL), map[], map[0 := Written("u", stamp)]);
      assert ConnectedUserIds(n) == {};
      t' := PulseOfN(reach, t', lim, BeatWake, users, n, m, users, next);
      t' := IdleCycles(reach, t', lim, wake + HEARTBEAT_INTERVAL, k - 1, users, stamp, m);
    }
  }

  /** A login of somebody new that takes no time at all, in its three steps. */
  lemma InstantLogin(clock: Time, users: Users, nodes: Nodes, gw: Gateway, task: nat, user: string)
    requires gw.status.Running? && task !in gw.logins && user !in gw.conns && user !in users
    ensures var users' := UpsertUserOnConnect(users, user, gw.node, clock);
            var writing := gw.(logins := gw.logins[task := Writing(user, clock)]);
            var written := gw.(logins := gw.logins[task := Written(user, clock)]);
            && LoginStep(clock, users, nodes, gw, LoginIssue(task, user)) == Some(Outcome(users, nodes, writing))
            && LoginStep(clock, users, nodes, writing, LoginLand(task)) == Some(Outcome(users', nodes, written))
            && LoginStep(clock, users', nodes, written, AddConnection(task))
                == Some(Outcome(users', nodes, gw.(conns := gw.conns[user := 1])))
  {
    var writing := gw.logins[task := Writing(user, clock)];
    assert writing[task := Written(user, clock)] == gw.logins[task := Written(user, clock)];
    assert gw.logins[task := Written(user, clock)] - {task} == gw.logins;
  }

  /** "v" logs in on "n" at the very moment the loop is due to wake. */
  lemma AnotherLogin(reach: iset<System>, t: System, lim: Limits, users: Users, u: Login, m: Gateway)
    returns (t': System)
    requires Gone(m) && u.Written? && t.clock <= u.stamp + lim.login && "v" !in users
    requires Pair(reach, t, lim, t.clock, users, Node("n", Waiting(t.clock), map[], map[0 := u]), m)
    ensures Pair(reach, t', lim, t.clock, UpsertUserOnConnect(users, "v", "n", t.clock),
              Node("n", Waiting(t.clock), map["v" := 1], map[0 := u]), m)
  {
    var users' := UpsertUserOnConnect(users, "v", "n", t.clock);
    var n0 := Node("n", Waiting(t.clock), map[], map[0 := u]);
    var n1 := n0.(logins := n0.logins[1 := Writing("v", t.clock)]);
    var n2 := n0.(logins := n0.logins[1 := Written("v", t.clock)]);
    InstantLogin(t.clock, users, t.nodes, n0, 1, "v");
    t' := LogOfN(reach, t, lim, LoginIssue(1, "v"), users, n0, m, users, n1);
    t' := LogOfN(reach, t', lim, LoginLand(1), users, n1, m, users', n2);
    t' := LogOfN(reach, t', lim, AddConnection(1), users', n2, m, users', n0.(conns := map[]["v" := 1]));
  }

  /** "u" is registered right after the snapshot that misses it. */
  lemma RegisteredTooLate(reach: iset<System>, t: System, lim: Limits, users: Users, u: Login, m: Gateway)
    returns (t': System)
    requires Gone(m) && u.Written? && u.user == "u" && t.clock <= u.stamp + lim.login
    requires Pair(reach, t, lim, t.clock, users, Node("n", Waiting(t.clock), map["v" := 1], map[0 := u]), m)
    ensures Pair(reach, t', lim, t.clock, users, Node("n", Snapped({"v"}, t.clock), map["v" := 1, "u" := 1], map[]), m)
  {
    var n0 := Node("n", Waiting(t.clock), map["v" := 1], map[0 := u]);
    var n1 := n0.(beat := Snapped({"v"}, t.clock));
    var n2 := n1.(logins := map[], conns := map["v" := 1, "u" := 1]);
    assert ConnectedUserIds(n0) == {"v"};
    t' := PulseOfN(reach, t, lim, BeatWake, users, n0, m, users, n1);
    assert n1.logins - {0} == n2.logins;
    t' := LogOfN(reach, t', lim, AddConnection(0), users, n1, m, users, n2);
  }

  /** The heartbeat without "u" takes all the time it may. */
  lemma SlowBeat(reach: iset<System>, t: System, lim: Limits, users: Users, m: Gateway)
    returns (t': System, users': Users)
    requires Gone(m) && "u" in users
    requires Pair(reach, t, lim, t.clock, users, Node("n", Snapped({"v"}, t.clock), map["v" := 1, "u" := 1], map[]), m)
    ensures "u" in users' && users'["u"] == users["u"]
    ensures var returned := t.clock + lim.statement;
            Pair(reach, t', lim, returned, users',
                Node("n", Releasing({}, None, returned), map["v" := 1, "u" := 1], map[]), m)
  {
    var at := t.clock;
    var n0 := Node("n", Snapped({"v"}, at), map["v" := 1, "u" := 1], map[]);
    var n1 := n0.(beat := Issued({"v"}, at, at));
    var n2 := n0.(beat := Landed({"v"}, at));
    t' := PulseOfN(reach, t, lim, BeatIssue, users, n0, m, users, n1);
    t' := PairTick(reach, t', lim, at + lim.statement, users, n1, m);
    users' := MarkUsersOnline(users, t'.nodes, {"v"}, "n", at, STALE_AFTER);
    t' := PulseOfN(reach, t', lim, BeatLand, users, n1, m, users', n2);
    assert {"v"} - ConnectedUserIds(n2) == {};
    t' := PulseOfN(reach, t', lim, BeatReturn, users', n2, m, users',
        n0.(beat := Releasing({}, None, at + lim.statement)));
  }

  /** So do the release pass, the wait, and the next heartbeat up to the moment before it lands. */
  lemma SlowCycle(reach: iset<System>, t: System, lim: Limits, users: Users, m: Gateway) returns (t': System)
    requires Gone(m)
    requires Pair(reach, t, lim, t.clock, users,
               Node("n", Releasing({}, None, t.clock), map["v" := 1, "u" := 1], map[]), m)
    ensures var wake := t.clock + lim.release + HEARTBEAT_INTERVAL;
            Pair(reach, t', lim, wake + lim.statement, users,
                Node("n", Snapped({"u", "v"}, wake), map["v" := 1, "u" := 1], map[]), m)
  {
    var wake := t.clock + lim.release + HEARTBEAT_INTERVAL;
    var n0 := Node("n", Releasing({}, None, t.clock), map["v" := 1, "u" := 1], map[]);
    var n1 := n0.(beat := Waiting(wake));
    var n2 := n0.(beat := Snapped({"u", "v"}, wake));
    t' := PairTick(reach, t, lim, t.clock + lim.release, users, n0, m);
    t' := PulseOfN(reach, t', lim, BeatDone, users, n0, m, users, n1);
    t' := PairTick(reach, t', lim, wake, users, n1, m);
    assert ConnectedUserIds(n1) == {"u", "v"};
    t' := PulseOfN(reach, t', lim, BeatWake, users, n1, m, users, n2);
    t' := PairTick(reach, t', lim, wake + lim.statement, users, n2, m);
  }

  function Seed(): System {
    System(EARLY, map[], map[], map[0 := Off("n"), 1 := Off("m")])
  }

  function UserU(): Users {
    UpsertUserOnConnect(map[], "u", "m", EARLY)
  }

  /** "m" starts and "u" logs in on it. */
  lemma Opening(reach: iset<System>, lim: Limits) returns (t: System)
    requires Closed(reach, lim) && Seed() in reach
    ensures Pair(reach, t, lim, EARLY, UserU(), Off("n"), Node("m", Waiting(SLOW_STAMP), map["u" := 1], map[]))
  {
    var m0 := Node("m", Waiting(SLOW_STAMP), map[], map[]);
    var m1 := m0.(logins := m0.logins[0 := Writing("u", EARLY)]);
    var m2 := m0.(logins := m0.logins[0 := Written("u", EARLY)]);
    assert Started(Off("m"), EARLY) == m0;
    t := StepOfM(reach, Seed(), lim, Life(1, Start), map[], Off("n"), Off("m"),
        Outcome(map[], PutNode(map[], "m", true, EARLY), m0));
    InstantLogin(EARLY, map[], t.nodes, m0, 0, "u");
    t := StepOfM(reach, t, lim, Log(1, LoginIssue(0, "u")), map[], Off("n"), m0, Outcome(map[], t.nodes, m1));
    t := StepOfM(reach, t, lim, Log(1, LoginLand(0)), map[], Off("n"), m1, Outcome(UserU(), t.nodes, m2));
    t := StepOfM(reach, t, lim, Log(1, AddConnection(0)), UserU(), Off("n"), m2,
        Outcome(UserU(), t.nodes, m0.(conns := map[]["u" := 1])));
  }

  /** "m" sends its heartbeat. */
  lemma SendSlowBeat(reach: iset<System>, t: System, lim: Limits, n: Gateway) returns (t': System)
    requires Pair(reach, t, lim, t.clock, UserU(), n, Node("m", Waiting(SLOW_STAMP), map["u" := 1], map[]))
    requires t.clock <= SLOW_STAMP && OnTime(n, SLOW_STAMP, lim)
    ensures Pair(reach, t', lim, SLOW_STAMP, UserU(), n,
              Node("m", Issued({"u"}, SLOW_STAMP, SLOW_STAMP), map["u" := 1], map[]))
  {
    var m0 := Node("m", Waiting(SLOW_STAMP), map["u" := 1], map[]);
    var m1 := m0.(beat := Snapped({"u"}, SLOW_STAMP));
    t' := PairTick(reach, t, lim, SLOW_STAMP, UserU(), n, m0);
    assert ConnectedUserIds(m0) == {"u"};
    t' := StepOfM(reach, t', lim, Pulse(1, BeatWake), UserU(), n, m0, Outcome(UserU(), t'.nodes, m1));
    t' := StepOfM(reach, t', lim, Pulse(1, BeatIssue), UserU(), n, m1,
        Outcome(UserU(), t'.nodes, m0.(beat := Issued({"u"}, SLOW_STAMP, SLOW_STAMP))));
  }

  /** "n" starts. */
  lemma StartN(reach: iset<System>, t: System, lim: Limits, at: Time, m: Gateway) returns (t': System)
    requires Pair(reach, t, lim, t.clock, UserU(), Off("n"), m) && t.clock <= at && OnTime(m, at, lim)
    ensures Pair(reach, t', lim, at, UserU(), Node("n", Waiting(at + HEARTBEAT_INTERVAL), map[], map[]), m)
  {
    t' := PairTick(reach, t, lim, at, UserU(), Off("n"), m);
    var n := Node("n", Waiting(at + HEARTBEAT_INTERVAL), map[], map[]);
    t' := StepOfN(reach, t', lim, Life(0, Start), UserU(), Off("n"), m,
        Outcome(UserU(), PutNode(t'.nodes, "n", true, at), n));
  }

  /** "u" logs in on "n" too. */
  lemma SecondLogin(reach: iset<System>, t: System, lim: Limits, wake: Time, m: Gateway) returns (t': System)
    requires t.clock <= wake && OnTime(m, t.clock, lim)
    requires Pair(reach, t, lim, t.clock, UserU(), Node("n", Waiting(wake), map[], map[]), m)
    ensures Pair(reach, t', lim, t.clock, UpsertUserOnConnect(UserU(), "u", "n", t.clock),
                 Node("n", Waiting(wake), map[], map[0 := Written("u", t.clock)]), m)
  {
    var n0 := Node("n", Waiting(wake), map[], map[]);
    var n1 := n0.(logins := map[0 := Writing("u", t.clock)]);
    var n2 := n0.(logins := map[0 := Written("u", t.clock)]);
    t' := LogOfN(reach, t, lim, LoginIssue(0, "u"), UserU(), n0, m, UserU(), n1);
    assert n1.logins[0 := Written("u", t.clock)] == n2.logins;
    t' := LogOfN(reach, t', lim, LoginLand(0), UserU(), n1, m, UpsertUserOnConnect(UserU(), "u", "n", t.clock), n2);
  }

  /** The slow heartbeat of "m" overwrites the new stamp, and "m" crashes. */
  lemma Overwrite(reach: iset<System>, t: System, lim: Limits, users: Users, n: Gateway)
    returns (t': System, users': Users, m: Gateway)
    requires t.clock == SLOW_STAMP + lim.statement && users.Keys == {"u"} && OnTime(n, t.clock, lim)
    requires Pair(reach, t, lim, t.clock, users, n,
               Node("m", Issued({"u"}, SLOW_STAMP, SLOW_STAMP), map["u" := 1], map[]))
    ensures Gone(m) && users'.Keys == {"u"} && users'["u"].onlineAt == SLOW_STAMP
    ensures Pair(reach, t', lim, t.clock, users', n, m)
  {
    var m0 := Node("m", Issued({"u"}, SLOW_STAMP, SLOW_STAMP), map["u" := 1], map[]);
    var m1 := m0.(beat := Landed({"u"}, SLOW_STAMP));
    users' := MarkUsersOnline(users, t.nodes, {"u"}, "m", SLOW_STAMP, STALE_AFTER);
    t' := StepOfM(reach, t, lim, Pulse(1, BeatLand), users, n, m0, Outcome(users', t.nodes, m1));
    m := m1.(status := Crashed(t.clock), conns := map[]);
    t' := StepOfM(reach, t', lim, Life(1, Crash), users', n, m1, Outcome(users', t'.nodes, m));
  }

  /** Everything up to the overwritten stamp; the order in which "n" starts and "m" beats depends on the limits. */
  lemma Prologue(reach: iset<System>, lim: Limits) returns (t: System)
    requires Closed(reach, lim) && Seed() in reach
    ensures var stamp := SLOW_STAMP + lim.statement;
            Pair(reach, t, lim, stamp, UserU(),
                Node("n", Waiting(stamp + lim.login % HEARTBEAT_INTERVAL), map[], map[]),
                 Node("m", Issued({"u"}, SLOW_STAMP, SLOW_STAMP), map["u" := 1], map[]))
  {
    var start := SLOW_STAMP + lim.statement + lim.login % HEARTBEAT_INTERVAL - HEARTBEAT_INTERVAL;
    var n := Node("n", Waiting(start + HEARTBEAT_INTERVAL), map[], map[]);
    var m := Node("m", Issued({"u"}, SLOW_STAMP, SLOW_STAMP), map["u" := 1], map[]);
    t := Opening(reach, lim);
    if start <= SLOW_STAMP {
      t := StartN(reach, t, lim, start, Node("m", Waiting(SLOW_STAMP), map["u" := 1], map[]));
      t := SendSlowBeat(reach, t, lim, n);
    } else {
      t := SendSlowBeat(reach, t, lim, Off("n"));
      t := StartN(reach, t, lim, start, m);
    }
    t := PairTick(reach, t, lim, SLOW_STAMP + lim.statement, UserU(), n, m);
  }

  /** "u" waits for its registration through every heartbeat of "n" that misses it. */
  lemma LongHandshake(reach: iset<System>, lim: Limits) returns (t: System, users: Users, m: Gateway)
    requires Closed(reach, lim) && Seed() in reach
    ensures Gone(m) && users.Keys == {"u"} && users["u"].onlineAt == SLOW_STAMP
    ensures var stamp := SLOW_STAMP + lim.statement;
            Pair(reach, t, lim, stamp + lim.login, users,
                Node("n", Waiting(stamp + lim.login), map[], map[0 := Written("u", stamp)]), m)
  {
    var stamp := SLOW_STAMP + lim.statement;
    var wake := stamp + lim.login % HEARTBEAT_INTERVAL;
    t := Prologue(reach, lim);
    t := SecondLogin(reach, t, lim, wake, Node("m", Issued({"u"}, SLOW_STAMP, SLOW_STAMP), map["u" := 1], map[]));
    t, users, m := Overwrite(reach, t, lim, t.users, Node("n", Waiting(wake), map[], map[0 := Written("u", stamp)]));
    t := IdleCycles(reach, t, lim, wake, lim.login / HEARTBEAT_INTERVAL, users, stamp, m);
  }

  /** "u" is connected to "n" and has not been stamped for the whole margin. */
  lemma WholeScenario(reach: iset<System>, lim: Limits) returns (t: System)
    requires Closed(reach, lim) && Seed() in reach
    ensures t in reach
    ensures 0 in t.gateways && t.gateways[0].status.Running? && Connected(t.gateways[0], "u")
    ensures "u" in t.users && t.users["u"].onlineAt == t.clock - Margin(lim)
  {
    var u := Written("u", SLOW_STAMP + lim.statement);
    var users, m;
    t, users, m := LongHandshake(reach, lim);
    t := AnotherLogin(reach, t, lim, users, u, m);
    users := t.users;
    t := RegisteredTooLate(reach, t, lim, users, u, m);
    t, users := SlowBeat(reach, t, lim, users, m);
    t := SlowCycle(reach, t, lim, users, m);
  }

  lemma ExtendTimedRun(states: seq<System>, steps: seq<Step>, step: Step, next: System, lim: Limits)
    requires TimedRun(states, steps, lim) && Synchronous(step)
    requires Next(states[|steps|], step) == Some(next) && Timely(next, lim)
    ensures TimedRun(states + [next], steps + [step], lim)
  {
    var states', steps' := states + [next], steps + [step];
    forall i | 0 <= i < |steps'| ensures Next(states'[i], steps'[i]) == Some(states'[i + 1]) {
      if i < |steps| {
        assert Next(states[i], steps[i]) == Some(states[i + 1]);
      }
    }
  }

  lemma {:induction false} PlayIsRun(s: System, script: seq<Step>, lim: Limits) returns (states: seq<System>)
    requires Init(s) && Play(s, script, lim).Some?
    ensures TimedRun(states, script, lim) && states[|script|] == Play(s, script, lim).value
  {
    if script == [] {
      states := [s];
    } else {
      var shorter, step := script[..|script| - 1], script[|script| - 1];
      states := PlayIsRun(s, shorter, lim);
      assert shorter + [step] == script;
      ExtendTimedRun(states, shorter, step, Play(s, script, lim).value, lim);
      states := states + [Play(s, script, lim).value];
    }
  }

  lemma SeedIsInitial()
    ensures Init(Seed())
  {
  }

  lemma ReachIsClosed(lim: Limits)
    ensures var reach := iset t | TimedReaches(Seed(), t, lim); Closed(reach, lim) && Seed() in reach
  {
    var reach := iset t | TimedReaches(Seed(), t, lim);
    TimelyPair(Seed(), lim, Off("n"), Off("m"));
    assert Play(Seed(), [], lim) == Some(Seed());
    forall t, step | t in reach && Synchronous(step) && Next(t, step).Some? && Timely(Next(t, step).value, lim)
      ensures Next(t, step).value in reach
    {
      var next := TimedNext(Seed(), t, step, lim);
    }
  }

  lemma NotShownOnline(lim: Limits) returns (states: seq<System>, script: seq<Step>)
    requires STALE_AFTER <= Margin(lim)
    ensures TimedRun(states, script, lim) && !ShownOnline(states[|script|])
  {
    var reach := iset t | TimedReaches(Seed(), t, lim);
    ReachIsClosed(lim);
    var t := WholeScenario(reach, lim);
    script :| Play(Seed(), script, lim) == Some(t);
    SeedIsInitial();
    states := PlayIsRun(Seed(), script, lim);
    assert ConnectedTo(t, 0, "u") && !Visible(t, "u");
  }

  /** Every connected user is always shown online if and only if the margin stays below the threshold. */
  lemma MarginIsExact(lim: Limits)
    ensures (forall states, steps | TimedRun(states, steps, lim) :: ShownOnline(states[|steps|])) <==>
              Margin(lim) < STALE_AFTER
  {
    if Margin(lim) < STALE_AFTER {
      forall states, steps | TimedRun(states, steps, lim) ensures ShownOnline(states[|steps|]) {
        OnlineMargin(states, steps, lim, |steps|);
      }
    } else {
      var states, script := NotShownOnline(lim);
    }
  }
}
