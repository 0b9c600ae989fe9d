/**
 The mesh presence protocol: any number of gateway processes share one database and
 keep, for every user, which node the user is on and when they were last seen.
 Every SQL statement is one atomic step; everything between two statements, and
 between a statement and its caller's next look at the connection index, may be
 interleaved with steps of any other task on any gateway.
 */
module Presence {
  import opened Common
  import opened UserTable

  /** How often each gateway refreshes its connected users. */
  const HEARTBEAT_INTERVAL: Time := 30

  /**
   The heartbeat loop of one gateway: it waits, collects the connected users (Snapped),
   sends the statement carrying its stamp (Issued), the statement takes effect (Landed),
   and once it has returned those who left meanwhile are released one by one; `clearing`
   is the one that passed the check and is about to be cleared.
   */
  datatype Beat =
    | Waiting(wake: Time)
    | Snapped(batch: set<string>, at: Time)
    | Issued(batch: set<string>, at: Time, stamp: Time)
    | Landed(batch: set<string>, at: Time)
    | Releasing(todo: set<string>, clearing: Option<string>, since: Time)

  /**
   A login in progress: the synchronous write in flight, the write done and the connection
   not registered yet, a login accepted on cached flags and not registered yet, and the
   background write of such a login.
   */
  datatype Login =
    | Writing(user: string, stamp: Time)
    | Written(user: string, stamp: Time)
    | Accepted(user: string)
    | Background(user: string)

  /** What a closed connection still owes: the check that it was the last, then the clear. */
  datatype Release = Check(user: string) | Clear(user: string)

  datatype Status = Stopped | Running | Crashed(at: Time) | Closed

  /**
   One gateway process: how many connections each user has, the logins and the releases in
   progress by task number, the heartbeat loop and a node registration in flight.
   */
  datatype Gateway = Gateway(
    node: string,
    status: Status,
    conns: map<string, nat>,
    logins: map<nat, Login>,
    releases: map<nat, Release>,
    beat: Beat,
    registering: Option<Time>)

  datatype System = System(clock: Time, users: Users, nodes: Nodes, gateways: map<nat, Gateway>)

  datatype Lifecycle = Start | Crash | Shutdown | RegisterIssue | RegisterLand | RegisterFails

  datatype LoginAction =
    | LoginIssue(task: nat, user: string)
    | LoginLand(task: nat)
    | LoginFails(task: nat)
    | AddConnection(task: nat)
    | HandshakeFails(task: nat)
    | CachedLogin(task: nat, background: nat, user: string)
    | BackgroundLand(task: nat, stamp: Time)

  datatype ReleaseAction =
    | Disconnect(task: nat, user: string)
    | ReleaseCheck(task: nat)
    | ReleaseClear(task: nat, stamp: Time)
    | ReleaseClearFails(task: nat)

  datatype BeatAction =
    | BeatWake
    | BeatIssue
    | BeatLand
    | BeatReturn
    | BeatCheck(user: string)
    | BeatClear(stamp: Time)
    | BeatDone
    | BeatFails
    | BeatClearFails

  datatype Step =
    | Tick(to: Time)
    | SetFlags(user: string, disabled: bool, administrator: bool)
    | Life(g: nat, lifecycle: Lifecycle)
    | Log(g: nat, login: LoginAction)
    | Rel(g: nat, release: ReleaseAction)
    | Pulse(g: nat, pulse: BeatAction)

  /** What a step of one gateway leaves behind: the two tables and the gateway. */
  datatype Outcome = Outcome(users: Users, nodes: Nodes, gw: Gateway)

  predicate MeshMember(gw: Gateway) {
    gw.node != ""
  }

  predicate Connected(gw: Gateway, user: string) {
    user in gw.conns && gw.conns[user] > 0
  }

  /** The distinct connected users; peer connections are indexed under an empty user and excluded. */
  function ConnectedUserIds(gw: Gateway): set<string> {
    set user | user in gw.conns && gw.conns[user] > 0 && user != ""
  }

  /** The login was let in and its connection is not registered yet. */
  predicate LetIn(login: Login, user: string) {
    (login.Written? || login.Accepted?) && login.user == user
  }

  predicate IsPending(gw: Gateway, user: string) {
    exists task | task in gw.logins :: LetIn(gw.logins[task], user)
  }

  predicate OwesRelease(gw: Gateway, user: string) {
    exists task | task in gw.releases :: gw.releases[task].user == user
  }

  predicate InReleasePass(gw: Gateway, user: string) {
    match gw.beat
    case Landed(batch, _) => user in batch
    case Releasing(todo, _, _) => user in todo
    case _ => false
  }

  /** The gateway holds the user, is about to, or is still going to look whether it does. */
  predicate Backed(gw: Gateway, user: string) {
    || Connected(gw, user)
    || IsPending(gw, user)
    || OwesRelease(gw, user)
    || InReleasePass(gw, user)
  }

  /** Every statement the process ever sent has taken effect or is known never to. */
  predicate NoStatementInFlight(gw: Gateway) {
    && (forall task | task in gw.logins :: !gw.logins[task].Writing? && !gw.logins[task].Background?)
    && (forall task | task in gw.releases :: !gw.releases[task].Clear?)
    && !gw.beat.Issued?
    && (gw.beat.Releasing? ==> gw.beat.clearing.None?)
    && gw.registering.None?
  }

  predicate Idle(gw: Gateway) {
    && ConnectedUserIds(gw) == {} && !Connected(gw, "")
    && gw.logins == map[]
    && gw.releases == map[]
    && gw.beat.Waiting?
    && gw.registering.None?
  }

  /** Statements already sent may still take effect after the process has crashed. */
  predicate MayLand(gw: Gateway) {
    gw.status.Running? || gw.status.Crashed?
  }

  function Finish(gw: Gateway, task: nat): Gateway {
    gw.(logins := gw.logins - {task})
  }

  /** The login is over and its connection is in the index. */
  function Join(gw: Gateway, task: nat, user: string): Gateway {
    gw.(logins := gw.logins - {task}, conns := gw.conns[user := if user in gw.conns then gw.conns[user] + 1 else 1])
  }

  /** A started process holds nobody, whatever rows already name its node. */
  function Started(gw: Gateway, clock: Time): Gateway {
    Gateway(gw.node, Running, map[], map[], map[], Waiting(clock + HEARTBEAT_INTERVAL), None)
  }

  function RegisterNode(nodes: Nodes, gw: Gateway, online: bool, stamp: Time): Nodes {
    if MeshMember(gw) then PutNode(nodes, gw.node, online, stamp) else nodes
  }

  /** Only the lifecycle changes what a process is, and with it the node table. */
  predicate SameProcess(gw: Gateway, gw': Gateway) {
    gw'.node == gw.node && gw'.status == gw.status && gw'.registering == gw.registering
  }

  function LifecycleStep(clock: Time, users: Users, nodes: Nodes, gw: Gateway, action: Lifecycle): Option<Outcome> {
    match action
    case Start =>
      // the node is registered before the background loops are started
      if gw.status.Running? || !NoStatementInFlight(gw) then None
      else Some(Outcome(users, RegisterNode(nodes, gw, true, clock), Started(gw, clock)))
    case Crash =>
      if !gw.status.Running? then None
      else Some(Outcome(users, nodes, gw.(status := Crashed(clock), conns := map[])))
    case Shutdown =>
      if !gw.status.Running? || !Idle(gw) then None
      else Some(Outcome(users, RegisterNode(nodes, gw, false, clock), gw.(status := Closed)))
    case RegisterIssue =>
      if !gw.status.Running? || gw.registering.Some? then None
      else Some(Outcome(users, nodes, gw.(registering := Some(clock))))
    case RegisterLand =>
      if !MayLand(gw) || gw.registering.None? then None
      else Some(Outcome(users, RegisterNode(nodes, gw, true, gw.registering.value), gw.(registering := None)))
    case RegisterFails =>
      if !gw.status.Running? || gw.registering.None? then None
      else Some(Outcome(users, nodes, gw.(registering := None)))
  }

  function LoginStep(clock: Time, users: Users, nodes: Nodes, gw: Gateway,
      action: LoginAction): (outcome: Option<Outcome>)
    ensures outcome.Some? ==> outcome.value.nodes == nodes && SameProcess(gw, outcome.value.gw)
    ensures outcome.Some? ==> outcome.value.gw.beat == gw.beat && outcome.value.gw.releases == gw.releases
  {
    match action
    case LoginIssue(task, user) =>
      if !gw.status.Running? || task in gw.logins then None
      else Some(Outcome(users, nodes, gw.(logins := gw.logins[task := Writing(user, clock)])))
    case LoginLand(task) =>
      if !MayLand(gw) || task !in gw.logins || !gw.logins[task].Writing? then None
      else
        var Writing(user, stamp) := gw.logins[task];
        var users' := UpsertUserOnConnect(users, user, gw.node, stamp);
        // the returned row decides: a disabled user is rejected
        Some(Outcome(users', nodes,
          if users'[user].disabled then Finish(gw, task) else gw.(logins := gw.logins[task := Written(user, stamp)])))
    case LoginFails(task) =>
      if !gw.status.Running? || task !in gw.logins || !gw.logins[task].Writing? then None
      else Some(Outcome(users, nodes, Finish(gw, task)))
    case AddConnection(task) =>
      if !gw.status.Running? || task !in gw.logins || gw.logins[task].Writing? || gw.logins[task].Background? then None
      else Some(Outcome(users, nodes, Join(gw, task, gw.logins[task].user)))
    case HandshakeFails(task) =>
      if !gw.status.Running? || task !in gw.logins || gw.logins[task].Writing? || gw.logins[task].Background? then None
      else Some(Outcome(users, nodes, Finish(gw, task)))
    case CachedLogin(task, background, user) =>
      if !gw.status.Running? || user !in users || task in gw.logins || background in gw.logins || task == background
      then None
      else Some(Outcome(users, nodes, gw.(logins := gw.logins[task := Accepted(user)][background := Background(user)])))
    case BackgroundLand(task, stamp) =>
      if !MayLand(gw) || task !in gw.logins || !gw.logins[task].Background? || clock < stamp then None
      else Some(Outcome(UpsertUserOnConnect(users, gw.logins[task].user, gw.node, stamp), nodes, Finish(gw, task)))
  }

  function ReleaseStep(users: Users, nodes: Nodes, gw: Gateway, action: ReleaseAction): (outcome: Option<Outcome>)
    ensures outcome.Some? ==> outcome.value.nodes == nodes && SameProcess(gw, outcome.value.gw)
    ensures outcome.Some? ==> outcome.value.gw.beat == gw.beat && outcome.value.gw.logins == gw.logins
  {
    match action
    case Disconnect(task, user) =>
      if !gw.status.Running? || !Connected(gw, user) || task in gw.releases then None
      else Some(Outcome(users, nodes,
        gw.(conns := gw.conns[user := gw.conns[user] - 1], releases := gw.releases[task := Check(user)])))
    case ReleaseCheck(task) =>
      if !gw.status.Running? || task !in gw.releases || !gw.releases[task].Check? then None
      else
        var user := gw.releases[task].user;
        var done := gw.(releases := gw.releases - {task});
        // an empty user is never released
        Some(Outcome(users, nodes,
          if user == "" || !MeshMember(gw) || Connected(gw, user) then done
          else gw.(releases := gw.releases[task := Clear(user)])))
    case ReleaseClear(task, stamp) =>
      if !MayLand(gw) || task !in gw.releases || !gw.releases[task].Clear? then None
      else Some(Outcome(ClearUserNodeID(users, gw.releases[task].user, gw.node, stamp), nodes,
                        gw.(releases := gw.releases - {task})))
    case ReleaseClearFails(task) =>
      if !MayLand(gw) || task !in gw.releases || !gw.releases[task].Clear? then None
      else Some(Outcome(users, nodes, gw.(releases := gw.releases - {task})))
  }

  function BeatStep(clock: Time, users: Users, nodes: Nodes, gw: Gateway,
      action: BeatAction): (outcome: Option<Outcome>)
    ensures outcome.Some? ==> outcome.value.nodes == nodes && SameProcess(gw, outcome.value.gw)
    ensures outcome.Some? ==> outcome.value.gw.conns == gw.conns && outcome.value.gw.releases == gw.releases
    ensures outcome.Some? ==> outcome.value.gw.logins == gw.logins
  {
    match action
    case BeatWake =>
      if !gw.status.Running? || !gw.beat.Waiting? || clock < gw.beat.wake then None
      else
        var batch := ConnectedUserIds(gw);
        Some(Outcome(users, nodes,
          gw.(beat := if batch == {} then Waiting(clock + HEARTBEAT_INTERVAL) else Snapped(batch, clock))))
    case BeatIssue =>
      if !gw.status.Running? || !gw.beat.Snapped? then None
      else Some(Outcome(users, nodes, gw.(beat := Issued(gw.beat.batch, gw.beat.at, clock))))
    case BeatLand =>
      if !MayLand(gw) || !gw.beat.Issued? then None
      else Some(Outcome(MarkUsersOnline(users, nodes, gw.beat.batch, gw.node, gw.beat.stamp, STALE_AFTER), nodes,
                        gw.(beat := Landed(gw.beat.batch, gw.beat.at))))
    case BeatReturn =>
      if !gw.status.Running? || !gw.beat.Landed? then None
      else Some(Outcome(users, nodes, gw.(beat := Releasing(gw.beat.batch - ConnectedUserIds(gw), None, clock))))
    case BeatCheck(user) =>
      if !gw.status.Running? || !gw.beat.Releasing? || gw.beat.clearing.Some? || user !in gw.beat.todo then None
      else if !MeshMember(gw) || Connected(gw, user) then
        Some(Outcome(users, nodes, gw.(beat := gw.beat.(todo := gw.beat.todo - {user}))))
      else
        Some(Outcome(users, nodes, gw.(beat := gw.beat.(clearing := Some(user)))))
    case BeatClear(stamp) =>
      if !MayLand(gw) || !gw.beat.Releasing? || gw.beat.clearing.None? then None
      else
        var user := gw.beat.clearing.value;
        Some(Outcome(ClearUserNodeID(users, user, gw.node, stamp), nodes,
                     gw.(beat := gw.beat.(todo := gw.beat.todo - {user}, clearing := None))))
    case BeatDone =>
      if !gw.status.Running? || !gw.beat.Releasing? || gw.beat.clearing.Some? || gw.beat.todo != {} then None
      else Some(Outcome(users, nodes, gw.(beat := Waiting(clock + HEARTBEAT_INTERVAL))))
    case BeatFails =>
      // the loop goes on to the next beat without a release pass
      if !gw.status.Running? || gw.beat.Waiting? || gw.beat.Releasing? then None
      else Some(Outcome(users, nodes, gw.(beat := Waiting(clock + HEARTBEAT_INTERVAL))))
    case BeatClearFails =>
      if !MayLand(gw) || !gw.beat.Releasing? || gw.beat.clearing.None? then None
      else Some(Outcome(users, nodes,
        gw.(beat := gw.beat.(todo := gw.beat.todo - {gw.beat.clearing.value}, clearing := None))))
  }

  function LocalStep(clock: Time, users: Users, nodes: Nodes, gw: Gateway, step: Step): (outcome: Option<Outcome>)
    ensures outcome.Some? && !step.Life? ==> outcome.value.nodes == nodes && SameProcess(gw, outcome.value.gw)
  {
    match step
    case Life(_, action) => LifecycleStep(clock, users, nodes, gw, action)
    case Log(_, action) => LoginStep(clock, users, nodes, gw, action)
    case Rel(_, action) => ReleaseStep(users, nodes, gw, action)
    case Pulse(_, action) => BeatStep(clock, users, nodes, gw, action)
    case _ => None
  }

  /** The state after a step, or None where the step cannot be taken. */
  function Next(s: System, step: Step): Option<System> {
    match step
    case Tick(to) => if to < s.clock then None else Some(s.(clock := to))
    case SetFlags(user, disabled, administrator) =>
      if user !in s.users then None
      else Some(s.(users := s.users[user := s.users[user].(disabled := disabled, administrator := administrator)]))
    case _ =>
      if step.g !in s.gateways then None
      else
        var outcome := LocalStep(s.clock, s.users, s.nodes, s.gateways[step.g], step);
        if outcome.None? then None
        else Some(s.(users := outcome.value.users, nodes := outcome.value.nodes,
            gateways := s.gateways[step.g := outcome.value.gw]))
  }

  /** Node ids are unique among mesh members. */
  predicate DistinctNodes(s: System) {
    forall g, k | g in s.gateways && k in s.gateways && g != k ::
      s.gateways[g].node != s.gateways[k].node || !MeshMember(s.gateways[g])
  }

  /** Nothing has been started; the tables hold whatever earlier deployments of these nodes left in them. */
  predicate Init(s: System) {
    && DistinctNodes(s)
    && (forall g | g in s.gateways :: s.gateways[g].status.Stopped? && Idle(s.gateways[g]))
    && (forall id | id in s.nodes :: s.nodes[id].onlineAt <= s.clock && exists g | g in s.gateways ::
        s.gateways[g].node == id)
    && ZERO_TIME < s.clock
  }

  /** A run: one more state than steps, each step taken where it can be. */
  predicate IsRun(states: seq<System>, steps: seq<Step>) {
    && |states| == |steps| + 1
    && forall i | 0 <= i < |steps| :: Next(states[i], steps[i]) == Some(states[i + 1])
  }

  ghost predicate Reaches(s: System, t: System) {
    exists states: seq<System>, steps: seq<Step> :: IsRun(states, steps) && states[0] == s && states[|steps|] == t
  }

  lemma ReachesItself(s: System)
    ensures Reaches(s, s)
  {
    assert IsRun([s], []);
  }

  lemma ReachesNext(s: System, t: System, step: Step) returns (next: System)
    requires Reaches(s, t) && Next(t, step).Some?
    ensures next == Next(t, step).value && Reaches(s, next)
  {
    next := Next(t, step).value;
    var states: seq<System>, steps: seq<Step> :| IsRun(states, steps) && states[0] == s && states[|steps|] == t;
    assert IsRun(states + [next], steps + [step]);
  }
}
