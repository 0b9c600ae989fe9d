/**
 Many lookups share one route cache. Each looks into the cache, reads the database, looks for the
 peer and stores or drops a route in separate steps; invalidations forget one user at a time; the
 user table and the peer table change under all of them. In every interleaving a lookup still
 returns what the cache-free lookup would on recent answers, and a forgotten route can come back
 before it is read again exactly if some lookup was between its read and its store.
 */
module RouteRaces {
  import opened Common
  import opened Hosts
  import opened UserTable
  import opened ExpiringCache
  import opened Routes

  /**
   Where a lookup is with its current candidate: about to look into the cache, about to read the
   database, told a node it can use, about to remember the route, about to drop it, or finished.
   */
  datatype Phase =
    | Asking
    | Missed
    | Told(node: string, cached: bool, at: Time)
    | Storing(route: string, peer: Peer, read: Time)
    | Dropping
    | Finished(found: Option<Peer>)

  /** A lookup with what its candidates were told and the peers it saw for each, or an invalidation. */
  datatype Task =
    | Resolving(host: string, began: Time, index: nat, phase: Phase, told: seq<Answer>, seen: seq<map<string, Peer>>)
    | Forgetting(host: string, index: nat)

  datatype System = System(
    self: string,
    clock: Time,
    users: Users,
    peers: map<string, Peer>,
    cache: Entries,
    tasks: map<nat, Task>)

  datatype Step =
    | Tick(to: Time)
    | Outside(users: Users, peers: map<string, Peer>)
    | Begin(l: nat, host: string)
    | Ask(l: nat)
    | Read(l: nat, ok: bool)
    | Choose(l: nat)
    | Store(l: nat)
    | Drop(l: nat)
    | Invalidate(l: nat, host: string)
    | Forget(l: nat)

  predicate Usable(self: string, node: string) {
    node != "" && node != self
  }

  /** The candidate a task is at; none once it is through. */
  function Candidate(task: Task): string {
    if task.index < |Split(task.host)| then UserAt(task.host, task.index) else ""
  }

  function Noted(task: Task, answer: Answer, peers: map<string, Peer>): Task
    requires task.Resolving?
  {
    task.(told := task.told + [answer], seen := task.seen + [peers])
  }

  function MovedOn(task: Task): Task
    requires task.Resolving?
  {
    task.(index := task.index + 1, phase := if task.index + 1 < |Split(task.host)| then Asking else Finished(None))
  }

  /** An answer that leads nowhere is passed over; the peers do not matter for it. */
  function Heard(self: string, task: Task, node: string, cached: bool, now: Time): Task
    requires task.Resolving?
  {
    if Usable(self, node) then task.(phase := Told(node, cached, now)) else MovedOn(Noted(task, Answered(node), map[]))
  }

  function Asked(s: System, task: Task): Task
    requires task.Resolving?
  {
    var user := Candidate(task);
    var hit := Lookup(s.cache, user, s.clock);
    if user == "" then MovedOn(Noted(task, Failed, map[]))
    else if hit.Some? then Heard(s.self, task, hit.value, true, s.clock)
    else task.(phase := Missed)
  }

  function HasRead(s: System, task: Task, ok: bool): Task
    requires task.Resolving?
  {
    if ok then Heard(s.self, task, GetUserNodeID(s.users, Candidate(task)), false, s.clock)
    else MovedOn(Noted(task, Failed, map[]))
  }

  function Chosen(s: System, task: Task): Task
    requires task.Resolving? && task.phase.Told?
  {
    var Told(node, cached, at) := task.phase;
    var noted := Noted(task, Answered(node), s.peers);
    if node in s.peers then
      noted.(phase := if cached then Finished(Some(s.peers[node])) else Storing(node, s.peers[node], at))
    else if cached then noted.(phase := Dropping)
    else MovedOn(noted)
  }

  /** What becomes of a lookup, if the step is the one it is at. */
  function TaskAfter(s: System, task: Task, step: Step): Option<Task>
    requires task.Resolving?
  {
    match step
    case Ask(_) => if task.phase.Asking? then Some(Asked(s, task)) else None
    case Read(_, ok) => if task.phase.Missed? then Some(HasRead(s, task, ok)) else None
    case Choose(_) => if task.phase.Told? then Some(Chosen(s, task)) else None
    case Store(_) => if task.phase.Storing? then Some(task.(phase := Finished(Some(task.phase.peer)))) else None
    case Drop(_) => if task.phase.Dropping? then Some(MovedOn(task)) else None
    case _ => None
  }

  function CacheAfter(s: System, task: Task, step: Step): Entries
    requires task.Resolving?
  {
    if step.Store? && task.phase.Storing? then
      Stored(s.cache, Candidate(task), task.phase.route, s.clock, ROUTE_TIME_TO_LIVE, ROUTE_MAX_ENTRIES)
    else if step.Drop? then s.cache - {Candidate(task)}
    else s.cache
  }

  function LookupStep(s: System, l: nat, task: Task, step: Step): Option<System>
    requires task.Resolving?
  {
    var after := TaskAfter(s, task, step);
    if after.None? then None else Some(s.(cache := CacheAfter(s, task, step), tasks := s.tasks[l := after.value]))
  }

  function ForgetStep(s: System, l: nat, task: Task): System
    requires task.Forgetting?
  {
    var cache := if Candidate(task) == "" then s.cache else s.cache - {Candidate(task)};
    var last := task.index + 1 == |Split(task.host)|;
    s.(cache := cache, tasks := if last then s.tasks - {l} else s.tasks[l := task.(index := task.index + 1)])
  }

  function Next(s: System, step: Step): Option<System> {
    match step
    case Tick(to) => if to >= s.clock then Some(s.(clock := to)) else None
    case Outside(users, peers) => Some(s.(users := users, peers := peers))
    case Begin(l, host) =>
      if l in s.tasks then None
      else
        var phase := if s.self == "" then Finished(None) else Asking;
        Some(s.(tasks := s.tasks[l := Resolving(host, s.clock, 0, phase, [], [])]))
    case Invalidate(l, host) => if l in s.tasks then None else Some(s.(tasks := s.tasks[l := Forgetting(host, 0)]))
    case Forget(l) => if l in s.tasks && s.tasks[l].Forgetting? then Some(ForgetStep(s, l, s.tasks[l])) else None
    case _ =>
      if step.l in s.tasks && s.tasks[step.l].Resolving?
      then LookupStep(s, step.l, s.tasks[step.l], step)
      else None
  }

  ghost predicate Linked(states: seq<System>, steps: seq<Step>, i: nat)
    requires i < |steps| && |states| == |steps| + 1
  {
    Next(states[i], steps[i]) == Some(states[i + 1])
  }

  ghost predicate IsRun(states: seq<System>, steps: seq<Step>) {
    && |states| == |steps| + 1
    && states[0].cache == map[] && states[0].tasks == map[]
    && forall i | 0 <= i < |steps| :: Linked(states, steps, i)
  }

  // What a lookup returns.

  /** The candidate at this position led nowhere. */
  predicate PassedOver(self: string, task: Task, i: nat)
    requires task.Resolving? && i < |Split(task.host)| && i < |task.told| && i < |task.seen|
  {
    UserAt(task.host, i) == "" || Reached(self, task.told[i], task.seen[i]).None?
  }

  /** A task is somewhere in its list of candidates, and every candidate before led nowhere. */
  predicate Sane(self: string, task: Task) {
    if task.Forgetting? then task.index < |Split(task.host)|
    else if self == "" then task.phase == Finished(None) && task.told == []
    else
      && |task.told| == |task.seen| && task.index <= |Split(task.host)| && task.index <= |task.told|
      && (forall i | 0 <= i < task.index :: PassedOver(self, task, i))
      && if task.phase == Finished(None) then task.index == |Split(task.host)| == |task.told|
         else task.index < |Split(task.host)| && SaneAt(self, task, task.index)
  }

  /** What holds of the current candidate in each phase. */
  predicate SaneAt(self: string, task: Task, i: nat)
    requires task.Resolving? && i < |Split(task.host)| && i <= |task.told| == |task.seen|
  {
    match task.phase
    case Asking => |task.told| == i
    case Missed => |task.told| == i && UserAt(task.host, i) != ""
    case Told(node, _, _) => |task.told| == i && UserAt(task.host, i) != "" && Usable(self, node)
    case Storing(route, peer, _) =>
      && |task.told| == i + 1 && UserAt(task.host, i) != "" && Usable(self, route)
      && task.told[i] == Answered(route) && Reached(self, task.told[i], task.seen[i]) == Some(peer)
    case Dropping => |task.told| == i + 1 && Reached(self, task.told[i], task.seen[i]).None?
    case Finished(found) =>
      |task.told| == i + 1 && UserAt(task.host, i) != "" && found.Some?
          && Reached(self, task.told[i], task.seen[i]) == found
  }

  /** A candidate that has been noted and led nowhere can be left behind. */
  lemma MovedOnIsSane(self: string, task: Task)
    requires task.Resolving? && self != "" && |task.told| == |task.seen| == task.index + 1 <= |Split(task.host)|
    requires forall i | 0 <= i <= task.index :: PassedOver(self, task, i)
    ensures Sane(self, MovedOn(task))
  {
    var moved := MovedOn(task);
    assert forall i | 0 <= i < moved.index :: PassedOver(self, moved, i) == PassedOver(self, task, i);
  }

  lemma NotedKeepsPassed(self: string, task: Task, answer: Answer, peers: map<string, Peer>)
    requires task.Resolving? && Sane(self, task) && self != "" && |task.told| == task.index < |Split(task.host)|
    ensures var noted := Noted(task, answer, peers);
            && (forall i | 0 <= i < task.index :: PassedOver(self, noted, i))
            && noted.told[task.index] == answer && noted.seen[task.index] == peers
  {
    var noted := Noted(task, answer, peers);
    forall i | 0 <= i < task.index ensures PassedOver(self, noted, i) {
      assert PassedOver(self, task, i) && noted.told[i] == task.told[i] && noted.seen[i] == task.seen[i];
    }
  }

  lemma HeardIsSane(self: string, task: Task, node: string, cached: bool, now: Time)
    requires task.Resolving? && Sane(self, task) && self != "" && |task.told| == task.index < |Split(task.host)|
    requires Candidate(task) != ""
    ensures Sane(self, Heard(self, task, node, cached, now))
  {
    if Usable(self, node) {
      var told := Heard(self, task, node, cached, now);
      assert forall i | 0 <= i < task.index :: PassedOver(self, told, i) == PassedOver(self, task, i);
    } else {
      NotedKeepsPassed(self, task, Answered(node), map[]);
      MovedOnIsSane(self, Noted(task, Answered(node), map[]));
    }
  }

  lemma AskedIsSane(s: System, task: Task)
    requires task.Resolving? && Sane(s.self, task) && task.phase.Asking?
    ensures Sane(s.self, Asked(s, task))
  {
    var user := Candidate(task);
    var hit := Lookup(s.cache, user, s.clock);
    if user == "" {
      NotedKeepsPassed(s.self, task, Failed, map[]);
      MovedOnIsSane(s.self, Noted(task, Failed, map[]));
    } else if hit.Some? {
      HeardIsSane(s.self, task, hit.value, true, s.clock);
    } else {
      var missed := task.(phase := Missed);
      assert forall i | 0 <= i < task.index :: PassedOver(s.self, missed, i) == PassedOver(s.self, task, i);
    }
  }

  lemma HasReadIsSane(s: System, task: Task, ok: bool)
    requires task.Resolving? && Sane(s.self, task) && task.phase.Missed?
    ensures Sane(s.self, HasRead(s, task, ok))
  {
    if ok {
      HeardIsSane(s.self, task, GetUserNodeID(s.users, Candidate(task)), false, s.clock);
    } else {
      NotedKeepsPassed(s.self, task, Failed, map[]);
      MovedOnIsSane(s.self, Noted(task, Failed, map[]));
    }
  }

  lemma ChosenIsSane(s: System, task: Task)
    requires task.Resolving? && Sane(s.self, task) && task.phase.Told?
    ensures Sane(s.self, Chosen(s, task))
  {
    var noted := Noted(task, Answered(task.phase.node), s.peers);
    NotedKeepsPassed(s.self, task, Answered(task.phase.node), s.peers);
    if task.phase.node !in s.peers && !task.phase.cached {
      MovedOnIsSane(s.self, noted);
    } else {
      var chosen := Chosen(s, task);
      assert forall i | 0 <= i < task.index :: PassedOver(s.self, chosen, i) == PassedOver(s.self, noted, i);
    }
  }

  lemma DroppedIsSane(self: string, task: Task)
    requires task.Resolving? && Sane(self, task) && task.phase.Dropping?
    ensures Sane(self, MovedOn(task))
  {
    assert PassedOver(self, task, task.index);
    MovedOnIsSane(self, task);
  }

  lemma StoredIsSane(self: string, task: Task)
    requires task.Resolving? && Sane(self, task) && task.phase.Storing?
    ensures Sane(self, task.(phase := Finished(Some(task.phase.peer))))
  {
    var stored := task.(phase := Finished(Some(task.phase.peer)));
    assert forall i | 0 <= i < task.index :: PassedOver(self, stored, i) == PassedOver(self, task, i);
  }

  ghost predicate AllSane(s: System) {
    forall l | l in s.tasks :: Sane(s.self, s.tasks[l])
  }

  lemma TaskAfterIsSane(s: System, task: Task, step: Step)
    requires task.Resolving? && Sane(s.self, task) && TaskAfter(s, task, step).Some?
    ensures Sane(s.self, TaskAfter(s, task, step).value)
  {
    match step
    case Ask(_) => AskedIsSane(s, task);
    case Read(_, ok) => HasReadIsSane(s, task, ok);
    case Choose(_) => ChosenIsSane(s, task);
    case Store(_) => StoredIsSane(s.self, task);
    case Drop(_) => DroppedIsSane(s.self, task);
  }

  predicate IsLookupStep(step: Step) {
    step.Ask? || step.Read? || step.Choose? || step.Store? || step.Drop?
  }

  lemma StepKeepsSane(s: System, step: Step)
    requires AllSane(s) && Next(s, step).Some?
    ensures AllSane(Next(s, step).value) && Next(s, step).value.self == s.self
  {
    if IsLookupStep(step) {
      TaskAfterIsSane(s, s.tasks[step.l], step);
    }
  }

  lemma {:induction false} RunIsSane(states: seq<System>, steps: seq<Step>, i: nat)
    requires IsRun(states, steps) && i < |states|
    ensures AllSane(states[i]) && states[i].self == states[0].self
  {
    if i > 0 {
      RunIsSane(states, steps, i - 1);
      assert Linked(states, steps, i - 1);
      StepKeepsSane(states[i - 1], steps[i - 1]);
    }
  }

  /** What every candidate was told; those after the one that decided were never asked. */
  function AllTold(task: Task): seq<Answer>
    requires task.Resolving? && |task.told| <= |Split(task.host)|
  {
    task.told + seq(|Split(task.host)| - |task.told|, _ => Failed)
  }

  function SeenAt(task: Task): nat -> map<string, Peer>
    requires task.Resolving?
  {
    (i: nat) => if i < |task.seen| then task.seen[i] else map[]
  }

  lemma {:induction false} PassedOverDoNotDecide(self: string, task: Task, from: nat, index: nat)
    requires task.Resolving? && from <= index <= |task.told| == |task.seen| <= |Split(task.host)| && self != ""
    requires forall i | 0 <= i < index :: PassedOver(self, task, i)
    ensures DirectLookup(self, task.host, from, AllTold(task), SeenAt(task))
         == DirectLookup(self, task.host, index, AllTold(task), SeenAt(task))
    decreases index - from
  {
    if from < index {
      assert PassedOver(self, task, from);
      PassedOverDoNotDecide(self, task, from + 1, index);
    }
  }

  /** A finished lookup has found what the cache-free lookup finds on what its candidates were told. */
  lemma FinishedIsDirect(self: string, task: Task)
    requires task.Resolving? && Sane(self, task) && task.phase.Finished? && |task.told| <= |Split(task.host)|
    ensures task.phase.found == DirectLookup(self, task.host, 0, AllTold(task), SeenAt(task))
  {
    if self != "" {
      PassedOverDoNotDecide(self, task, 0, task.index);
    }
  }

  // How old an answer can be.

  /** The user's row named the node, or named none if the node is empty. */
  predicate HeldAt(s: System, user: string, node: string) {
    GetUserNodeID(s.users, user) == node
  }

  /** The row held the node at a moment of the run that is not older than `since`. */
  ghost predicate Held(states: seq<System>, i: nat, user: string, node: string, since: Time) {
    exists j :: 0 <= j <= i < |states| && HeldAt(states[j], user, node) && states[j].clock >= since
  }

  lemma HeldLater(states: seq<System>, i: nat, user: string, node: string, since: Time, earlier: Time)
    requires Held(states, i, user, node, since) && i + 1 < |states| && earlier <= since
    ensures Held(states, i + 1, user, node, earlier)
  {
    var j :| 0 <= j <= i < |states| && HeldAt(states[j], user, node) && states[j].clock >= since;
    assert 0 <= j <= i + 1 < |states| && HeldAt(states[j], user, node) && states[j].clock >= earlier;
  }

  /** A route that was read is remembered within the latency. */
  predicate Prompt(s: System, latency: Time) {
    forall l | l in s.tasks && s.tasks[l].Resolving? && s.tasks[l].phase.Storing? ::
        s.clock <= s.tasks[l].phase.read + latency
  }

  /** How far back the answers of a lookup may go. */
  function Oldest(task: Task, latency: Time): Time
    requires task.Resolving?
  {
    task.began - ROUTE_TIME_TO_LIVE - latency
  }

  /** What one candidate was told is recent. */
  ghost predicate AnswerSound(states: seq<System>, i: nat, task: Task, k: nat, latency: Time)
    requires task.Resolving? && k < |task.told|
  {
    task.told[k].Answered? && k < |Split(task.host)| ==>
      Held(states, i, UserAt(task.host, k), task.told[k].nodeId, Oldest(task, latency))
  }

  /** So is what it has just been told, and a route about to be remembered was read when it says. */
  ghost predicate PhaseSound(states: seq<System>, i: nat, task: Task, latency: Time)
    requires task.Resolving?
  {
    match task.phase
    case Told(node, cached, at) =>
      && Held(states, i, Candidate(task), node, Oldest(task, latency))
      && (!cached ==> Held(states, i, Candidate(task), node, at))
    case Storing(route, _, read) => Held(states, i, Candidate(task), route, read)
    case _ => true
  }

  ghost predicate TaskSound(states: seq<System>, i: nat, task: Task, latency: Time)
    requires i < |states|
  {
    task.Resolving? ==>
      && task.began <= states[i].clock
      && (forall k | 0 <= k < |task.told| :: AnswerSound(states, i, task, k, latency))
      && PhaseSound(states, i, task, latency)
  }

  /** Every cached route leads to some other node and was read a bounded time ago. */
  ghost predicate RouteSound(states: seq<System>, i: nat, user: string, entry: Entry<string>, latency: Time)
    requires i < |states|
  {
    && Usable(states[i].self, entry.value)
    && Held(states, i, user, entry.value, entry.expiresAt - ROUTE_TIME_TO_LIVE - latency)
  }

  ghost predicate Sound(states: seq<System>, i: nat, latency: Time)
    requires i < |states|
  {
    && (forall l | l in states[i].tasks :: TaskSound(states, i, states[i].tasks[l], latency))
    && (forall user | user in states[i].cache :: RouteSound(states, i, user, states[i].cache[user], latency))
  }

  /** A task that does not move stays sound. */
  lemma TaskStaysSound(states: seq<System>, i: nat, task: Task, latency: Time)
    requires i + 1 < |states| && states[i].clock <= states[i + 1].clock && TaskSound(states, i, task, latency)
    ensures TaskSound(states, i + 1, task, latency)
  {
    if task.Resolving? {
      var next := i + 1;
      forall k | 0 <= k < |task.told| ensures AnswerSound(states, next, task, k, latency) {
        assert AnswerSound(states, i, task, k, latency);
        if task.told[k].Answered? && k < |Split(task.host)| {
          var since := Oldest(task, latency);
          HeldLater(states, i, UserAt(task.host, k), task.told[k].nodeId, since, since);
        }
      }
      match task.phase
      case Told(node, cached, at) =>
        HeldLater(states, i, Candidate(task), node, Oldest(task, latency), Oldest(task, latency));
        if !cached {
          HeldLater(states, i, Candidate(task), node, at, at);
        }
      case Storing(route, _, read) => HeldLater(states, i, Candidate(task), route, read, read);
      case _ =>
    }
  }

  /** The task after a candidate was told something: what was told is recent, and the next phase claims nothing new. */
  lemma NotedIsSound(states: seq<System>, i: nat, task: Task, answer: Answer, peers: map<string, Peer>, next: Task,
      latency: Time)
    requires task.Resolving? && i < |states| && TaskSound(states, i, task, latency)
    requires |task.told| == task.index < |Split(task.host)|
    requires answer.Answered? ==> Held(states, i, Candidate(task), answer.nodeId, Oldest(task, latency))
    requires next.Resolving? && next.host == task.host && next.began == task.began && next.told == task.told + [answer]
    requires PhaseSound(states, i, next, latency)
    ensures TaskSound(states, i, next, latency)
  {
    forall k | 0 <= k < |next.told| ensures AnswerSound(states, i, next, k, latency) {
      if k < |task.told| {
        assert AnswerSound(states, i, task, k, latency) && next.told[k] == task.told[k];
      }
    }
  }

  lemma HeardIsSound(states: seq<System>, i: nat, self: string, task: Task, node: string, cached: bool, now: Time,
      latency: Time)
    requires task.Resolving? && i < |states| && TaskSound(states, i, task, latency)
    requires |task.told| == task.index < |Split(task.host)|
    requires Held(states, i, Candidate(task), node, Oldest(task, latency))
    requires !cached ==> Held(states, i, Candidate(task), node, now)
    ensures TaskSound(states, i, Heard(self, task, node, cached, now), latency)
  {
    var heard := Heard(self, task, node, cached, now);
    if Usable(self, node) {
      forall k | 0 <= k < |heard.told| ensures AnswerSound(states, i, heard, k, latency) {
        assert AnswerSound(states, i, task, k, latency);
      }
    } else {
      NotedIsSound(states, i, task, Answered(node), map[], heard, latency);
    }
  }

  /** A row that is read now was held now. */
  lemma HeldNow(states: seq<System>, i: nat, user: string, since: Time)
    requires i + 1 < |states| && since <= states[i].clock
    ensures Held(states, i + 1, user, GetUserNodeID(states[i].users, user), since)
  {
    assert HeldAt(states[i], user, GetUserNodeID(states[i].users, user));
  }

  lemma AskedIsSound(states: seq<System>, i: nat, task: Task, latency: Time)
    requires i + 1 < |states| && TaskSound(states, i + 1, task, latency) && Sound(states, i, latency)
    requires task.Resolving? && Sane(states[i].self, task) && task.phase.Asking? && task.began <= states[i].clock
    ensures TaskSound(states, i + 1, Asked(states[i], task), latency)
  {
    var s, user := states[i], Candidate(task);
    var hit := Lookup(s.cache, user, s.clock);
    var asked := Asked(s, task);
    if user == "" {
      NotedIsSound(states, i + 1, task, Failed, map[], asked, latency);
    } else if hit.Some? {
      assert RouteSound(states, i, user, s.cache[user], latency);
      HeldLater(states, i, user, hit.value, s.cache[user].expiresAt - ROUTE_TIME_TO_LIVE - latency,
          Oldest(task, latency));
      HeardIsSound(states, i + 1, s.self, task, hit.value, true, s.clock, latency);
    } else {
      SameToldIsSound(states, i + 1, task, asked, latency);
    }
  }

  /** Another phase that claims nothing keeps the answers. */
  lemma SameToldIsSound(states: seq<System>, i: nat, task: Task, next: Task, latency: Time)
    requires task.Resolving? && i < |states| && TaskSound(states, i, task, latency)
    requires next.Resolving? && next.host == task.host && next.began == task.began && next.told == task.told
    requires PhaseSound(states, i, next, latency)
    ensures TaskSound(states, i, next, latency)
  {
    forall k | 0 <= k < |next.told| ensures AnswerSound(states, i, next, k, latency) {
      assert AnswerSound(states, i, task, k, latency);
    }
  }

  lemma HasReadIsSound(states: seq<System>, i: nat, task: Task, ok: bool, latency: Time)
    requires i + 1 < |states| && TaskSound(states, i + 1, task, latency) && latency >= 0
    requires task.Resolving? && Sane(states[i].self, task) && task.phase.Missed? && task.began <= states[i].clock
    ensures TaskSound(states, i + 1, HasRead(states[i], task, ok), latency)
  {
    var s, user := states[i], Candidate(task);
    if ok {
      HeldNow(states, i, user, Oldest(task, latency));
      HeldNow(states, i, user, s.clock);
      HeardIsSound(states, i + 1, s.self, task, GetUserNodeID(s.users, user), false, s.clock, latency);
    } else {
      NotedIsSound(states, i + 1, task, Failed, map[], HasRead(s, task, ok), latency);
    }
  }

  lemma ChosenIsSound(states: seq<System>, i: nat, s: System, task: Task, latency: Time)
    requires i < |states| && TaskSound(states, i, task, latency)
    requires task.Resolving? && Sane(s.self, task) && task.phase.Told?
    ensures TaskSound(states, i, Chosen(s, task), latency)
  {
    NotedIsSound(states, i, task, Answered(task.phase.node), s.peers, Chosen(s, task), latency);
  }

  lemma TaskAfterIsSound(states: seq<System>, i: nat, task: Task, step: Step, latency: Time)
    requires i + 1 < |states| && states[i].clock <= states[i + 1].clock && Sound(states, i, latency) && latency >= 0
    requires task.Resolving? && TaskSound(states, i, task, latency) && Sane(states[i].self, task)
    requires TaskAfter(states[i], task, step).Some?
    ensures TaskSound(states, i + 1, TaskAfter(states[i], task, step).value, latency)
  {
    TaskStaysSound(states, i, task, latency);
    match step
    case Ask(_) => AskedIsSound(states, i, task, latency);
    case Read(_, ok) => HasReadIsSound(states, i, task, ok, latency);
    case Choose(_) => ChosenIsSound(states, i + 1, states[i], task, latency);
    case Store(_) => SameToldIsSound(states, i + 1, task, TaskAfter(states[i], task, step).value, latency);
    case Drop(_) => SameToldIsSound(states, i + 1, task, TaskAfter(states[i], task, step).value, latency);
  }

  /** A step of a run, and what it needs to be sound. */
  ghost predicate GoodStep(states: seq<System>, steps: seq<Step>, i: nat, latency: Time) {
    && i + 1 < |states| == |steps| + 1 && Next(states[i], steps[i]) == Some(states[i + 1]) && latency >= 0
    && AllSane(states[i]) && Sound(states, i, latency) && Prompt(states[i], latency)
  }

  lemma ClockGoesOn(s: System, step: Step)
    requires Next(s, step).Some?
    ensures s.clock <= Next(s, step).value.clock
  {
  }

  /** Where a task after a step comes from. */
  lemma TaskComesFrom(s: System, step: Step, l: nat)
    requires Next(s, step).Some? && l in Next(s, step).value.tasks
    ensures var task := Next(s, step).value.tasks[l];
            || (l in s.tasks && (task == s.tasks[l] || task.Forgetting?))
            || (IsLookupStep(step) && step.l == l && l in s.tasks && s.tasks[l].Resolving?
                && TaskAfter(s, s.tasks[l], step) == Some(task))
            || (l !in s.tasks && (task.Resolving? ==>
                task.began == s.clock && task.told == [] && (task.phase.Asking? || task.phase.Finished?)))
  {
  }

  lemma OldTaskStaysSound(states: seq<System>, steps: seq<Step>, i: nat, l: nat, latency: Time)
    requires GoodStep(states, steps, i, latency) && l in states[i].tasks && l in states[i + 1].tasks
    requires states[i].clock <= states[i + 1].clock
    requires states[i + 1].tasks[l] == states[i].tasks[l] || states[i + 1].tasks[l].Forgetting?
          || (states[i].tasks[l].Resolving?
              && TaskAfter(states[i], states[i].tasks[l], steps[i]) == Some(states[i + 1].tasks[l]))
    ensures TaskSound(states, i + 1, states[i + 1].tasks[l], latency)
  {
    var task := states[i].tasks[l];
    assert TaskSound(states, i, task, latency) && Sane(states[i].self, task);
    if states[i + 1].tasks[l] == task {
      TaskStaysSound(states, i, task, latency);
    } else if states[i + 1].tasks[l].Resolving? {
      TaskAfterIsSound(states, i, task, steps[i], latency);
    }
  }

  lemma TasksStaySound(states: seq<System>, steps: seq<Step>, i: nat, l: nat, latency: Time)
    requires GoodStep(states, steps, i, latency) && l in states[i + 1].tasks
    ensures TaskSound(states, i + 1, states[i + 1].tasks[l], latency)
  {
    ClockGoesOn(states[i], steps[i]);
    TaskComesFrom(states[i], steps[i], l);
    if l in states[i].tasks {
      OldTaskStaysSound(states, steps, i, l, latency);
    }
  }

  /** Where a route in the cache after a step comes from. */
  lemma RouteComesFrom(s: System, step: Step, user: string)
    requires Next(s, step).Some? && user in Next(s, step).value.cache
    ensures var entry := Next(s, step).value.cache[user];
            || (user in s.cache && entry == s.cache[user])
            || (step.Store? && step.l in s.tasks && s.tasks[step.l].Resolving? && s.tasks[step.l].phase.Storing?
                && Candidate(s.tasks[step.l]) == user
                    && entry == Entry(s.tasks[step.l].phase.route, s.clock + ROUTE_TIME_TO_LIVE))
  {
    KeptIsBounded(s.cache, s.clock, ROUTE_MAX_ENTRIES);
  }

  lemma RoutesStaySound(states: seq<System>, steps: seq<Step>, i: nat, user: string, latency: Time)
    requires GoodStep(states, steps, i, latency) && user in states[i + 1].cache && states[i + 1].self == states[i].self
    ensures RouteSound(states, i + 1, user, states[i + 1].cache[user], latency)
  {
    var s, entry := states[i], states[i + 1].cache[user];
    var since := entry.expiresAt - ROUTE_TIME_TO_LIVE - latency;
    RouteComesFrom(s, steps[i], user);
    if user in s.cache && entry == s.cache[user] {
      assert RouteSound(states, i, user, entry, latency);
      HeldLater(states, i, user, entry.value, since, since);
    } else {
      var task := s.tasks[steps[i].l];
      assert TaskSound(states, i, task, latency) && Sane(s.self, task);
      HeldLater(states, i, user, entry.value, task.phase.read, since);
    }
  }

  lemma OneMoreSound(states: seq<System>, steps: seq<Step>, i: nat, latency: Time)
    requires i > 0 && GoodStep(states, steps, i - 1, latency) && states[i].self == states[i - 1].self
    ensures Sound(states, i, latency)
  {
    forall l | l in states[i].tasks ensures TaskSound(states, i, states[i].tasks[l], latency) {
      TasksStaySound(states, steps, i - 1, l, latency);
    }
    forall user | user in states[i].cache ensures RouteSound(states, i, user, states[i].cache[user], latency) {
      RoutesStaySound(states, steps, i - 1, user, latency);
    }
  }

  lemma {:induction false} RunIsSound(states: seq<System>, steps: seq<Step>, i: nat, latency: Time)
    requires IsRun(states, steps) && i < |states| && latency >= 0
    requires forall k | 0 <= k < |states| :: Prompt(states[k], latency)
    ensures Sound(states, i, latency)
  {
    if i > 0 {
      RunIsSound(states, steps, i - 1, latency);
      RunIsSane(states, steps, i - 1);
      RunIsSane(states, steps, i);
      assert Linked(states, steps, i - 1);
      OneMoreSound(states, steps, i, latency);
    }
  }

  /**
   Cached routing refines uncached routing, in every interleaving: a finished lookup has found what
   the cache-free lookup finds on what its candidates were told, and every node a candidate was
   told is one its row held at most 15 seconds and the latency of a store before the lookup began.
   */
  lemma LookupsRefineDirect(states: seq<System>, steps: seq<Step>, i: nat, l: nat, latency: Time)
    requires IsRun(states, steps) && i < |states| && latency >= 0
    requires forall k | 0 <= k < |states| :: Prompt(states[k], latency)
    requires l in states[i].tasks && states[i].tasks[l].Resolving? && states[i].tasks[l].phase.Finished?
    ensures var task := states[i].tasks[l];
            && |task.told| <= |Split(task.host)|
            && task.phase.found == DirectLookup(states[i].self, task.host, 0, AllTold(task), SeenAt(task))
            && IsBestRoute(states[i].self, task.host, AllTold(task), SeenAt(task), task.phase.found)
            && forall k | 0 <= k < |task.told| && task.told[k].Answered? ::
                 Held(states, i, UserAt(task.host, k), task.told[k].nodeId, task.began - ROUTE_TIME_TO_LIVE - latency)
  {
    RunIsSane(states, steps, i);
    RunIsSound(states, steps, i, latency);
    var task := states[i].tasks[l];
    assert Sane(states[i].self, task) && TaskSound(states, i, task, latency);
    FinishedIsDirect(states[i].self, task);
    DirectIsBest(states[i].self, task.host, AllTold(task), SeenAt(task));
    forall k | 0 <= k < |task.told| && task.told[k].Answered?
      ensures Held(states, i, UserAt(task.host, k), task.told[k].nodeId, Oldest(task, latency))
    {
      assert AnswerSound(states, i, task, k, latency);
    }
  }

  /** In every interleaving, every cached route leads to some other node, one the row held a bounded time ago. */
  lemma CachedRoutesAreUsable(states: seq<System>, steps: seq<Step>, i: nat, user: string, latency: Time)
    requires IsRun(states, steps) && i < |states| && latency >= 0
    requires forall k | 0 <= k < |states| :: Prompt(states[k], latency)
    requires user in states[i].cache
    ensures var entry := states[i].cache[user];
            && entry.value != "" && entry.value != states[i].self
            && Held(states, i, user, entry.value, entry.expiresAt - ROUTE_TIME_TO_LIVE - latency)
  {
    RunIsSound(states, steps, i, latency);
    assert RouteSound(states, i, user, states[i].cache[user], latency);
  }

  /**
   A step of a lookup adds at most one answer, and no answer only if there was nobody to ask for
   or the read failed.
   */
  lemma ToldAfter(s: System, task: Task, step: Step)
    requires task.Resolving? && Sane(s.self, task) && TaskAfter(s, task, step).Some?
    ensures var after := TaskAfter(s, task, step).value;
            && after.Resolving? && after.host == task.host && |after.told| <= |task.told| + 1 && task.told <= after.told
            && (|after.told| > |task.told| && after.told[|task.told|].Failed? && Candidate(task) != "" ==>
                  step.Read? && !step.ok && task.index == |task.told|)
  {
  }

  /** A candidate without an answer had its database read fail. */
  lemma {:induction false} FailuresWereReads(states: seq<System>, steps: seq<Step>, i: nat, l: nat, k: nat)
    returns (j: nat)
    requires IsRun(states, steps) && i < |states| && l in states[i].tasks && states[i].tasks[l].Resolving?
    requires k < |states[i].tasks[l].told| && k < |Split(states[i].tasks[l].host)|
    requires states[i].tasks[l].told[k].Failed? && UserAt(states[i].tasks[l].host, k) != ""
    ensures j < i && steps[j] == Read(l, false) && l in states[j].tasks && states[j].tasks[l].Resolving?
    ensures states[j].tasks[l].host == states[i].tasks[l].host && states[j].tasks[l].index == k
  {
    assert i > 0;
    var s, step := states[i - 1], steps[i - 1];
    assert Linked(states, steps, i - 1);
    RunIsSane(states, steps, i - 1);
    TaskComesFrom(s, step, l);
    var task := s.tasks[l];
    if states[i].tasks[l] != task {
      ToldAfter(s, task, step);
    }
    if k < |task.told| {
      j := FailuresWereReads(states, steps, i - 1, l, k);
    } else {
      j := i - 1;
    }
  }

  /** The cache never holds more than its bound. */
  lemma {:induction false} CacheIsBounded(states: seq<System>, steps: seq<Step>, i: nat)
    requires IsRun(states, steps) && i < |states|
    ensures |states[i].cache| <= ROUTE_MAX_ENTRIES
  {
    if i > 0 {
      CacheIsBounded(states, steps, i - 1);
      assert Linked(states, steps, i - 1);
      StepKeepsBound(states[i - 1], steps[i - 1]);
    }
  }

  lemma StepKeepsBound(s: System, step: Step)
    requires |s.cache| <= ROUTE_MAX_ENTRIES && Next(s, step).Some?
    ensures |Next(s, step).value.cache| <= ROUTE_MAX_ENTRIES
  {
    if step.Store? {
      var task, kept := s.tasks[step.l], Kept(s.cache, s.clock, ROUTE_MAX_ENTRIES);
      KeptIsBounded(s.cache, s.clock, ROUTE_MAX_ENTRIES);
      UpdateSize(kept, Candidate(task), Entry(task.phase.route, s.clock + ROUTE_TIME_TO_LIVE));
    } else if step.Drop? || step.Forget? {
      var user := Candidate(s.tasks[step.l]);
      assert (s.cache - {user}).Keys == s.cache.Keys - {user};
    }
  }

  // When a forgotten route comes back.

  /** Some lookup has read the user's node and may still remember it. */
  predicate InFlight(s: System, user: string) {
    exists l | l in s.tasks :: MayStore(s.tasks[l], user)
  }

  predicate MayStore(task: Task, user: string) {
    && task.Resolving? && Candidate(task) == user
    && ((task.phase.Told? && !task.phase.cached) || task.phase.Storing?)
  }

  predicate ReadsUser(s: System, step: Step, user: string) {
    step.Read? && step.l in s.tasks && Candidate(s.tasks[step.l]) == user
  }

  /** The state after a plan, if every step can be taken and none reads the user's node. */
  function PlayUnread(s: System, plan: seq<Step>, user: string): Option<System>
    decreases |plan|
  {
    if plan == [] then Some(s)
    else if ReadsUser(s, plan[0], user) || Next(s, plan[0]).None? then None
    else PlayUnread(Next(s, plan[0]).value, plan[1..], user)
  }

  ghost predicate LeadsToHit(s: System, plan: seq<Step>, user: string) {
    var after := PlayUnread(s, plan, user);
    after.Some? && Lookup(after.value.cache, user, after.value.clock).Some?
  }

  /** A lookup of the user can be answered from the cache before anybody reads the user's node again. */
  ghost predicate MayBeCached(s: System, user: string) {
    exists plan :: LeadsToHit(s, plan, user)
  }

  lemma TaskStaysUnread(s: System, task: Task, step: Step, user: string)
    requires user !in s.cache && task.Resolving? && !MayStore(task, user) && TaskAfter(s, task, step).Some?
    requires step.Read? ==> Candidate(task) != user
    ensures !MayStore(TaskAfter(s, task, step).value, user)
  {
  }

  lemma StepStaysUncached(s: System, step: Step, user: string)
    requires user !in s.cache && !InFlight(s, user) && Next(s, step).Some? && !ReadsUser(s, step, user)
    ensures user !in Next(s, step).value.cache && !InFlight(Next(s, step).value, user)
  {
    var next := Next(s, step).value;
    if user in next.cache {
      RouteComesFrom(s, step, user);
    }
    forall l | l in next.tasks ensures !MayStore(next.tasks[l], user) {
      TaskComesFrom(s, step, l);
      if IsLookupStep(step) && step.l == l {
        TaskStaysUnread(s, s.tasks[l], step, user);
      }
    }
  }

  lemma {:induction false} StaysUncached(s: System, plan: seq<Step>, user: string)
    requires user !in s.cache && !InFlight(s, user) && PlayUnread(s, plan, user).Some?
    ensures user !in PlayUnread(s, plan, user).value.cache
    decreases |plan|
  {
    if plan != [] {
      StepStaysUncached(s, plan[0], user);
      StaysUncached(Next(s, plan[0]).value, plan[1..], user);
    }
  }

  lemma OneMoreStep(s: System, step: Step, plan: seq<Step>, user: string)
    requires Next(s, step).Some? && !step.Read? && LeadsToHit(Next(s, step).value, plan, user)
    ensures LeadsToHit(s, [step] + plan, user)
  {
    assert ([step] + plan)[1..] == plan;
  }

  lemma StoringLeadsToHit(s: System, l: nat)
    requires l in s.tasks && s.tasks[l].Resolving? && s.tasks[l].phase.Storing?
    ensures LeadsToHit(s, [Store(l)], Candidate(s.tasks[l]))
  {
    var user := Candidate(s.tasks[l]);
    assert PlayUnread(Next(s, Store(l)).value, [], user) == Next(s, Store(l));
    OneMoreStep(s, Store(l), [], user);
    assert [Store(l)] + [] == [Store(l)];
  }

  /** A lookup that has read a route remembers it if its peer turns up. */
  lemma ToldLeadsToHit(s: System, l: nat) returns (plan: seq<Step>)
    requires l in s.tasks && s.tasks[l].Resolving? && s.tasks[l].phase.Told? && !s.tasks[l].phase.cached
    ensures LeadsToHit(s, plan, Candidate(s.tasks[l]))
  {
    var task, user := s.tasks[l], Candidate(s.tasks[l]);
    var arrive := Outside(s.users, s.peers[task.phase.node := Peer(0, task.phase.node)]);
    var arrived := Next(s, arrive).value;
    var chosen := Next(arrived, Choose(l)).value;
    StoringLeadsToHit(chosen, l);
    OneMoreStep(arrived, Choose(l), [Store(l)], user);
    OneMoreStep(s, arrive, [Choose(l)] + [Store(l)], user);
    plan := [arrive] + ([Choose(l)] + [Store(l)]);
  }

  /** The step takes the user's route out of the cache: an invalidation does, and a lookup that found no peer for it. */
  predicate Forgets(s: System, step: Step, user: string) {
    && (step.Forget? || step.Drop?) && Next(s, step).Some? && user != "" && Candidate(s.tasks[step.l]) == user
  }

  lemma ForgottenIsOut(s: System, step: Step, user: string)
    requires Forgets(s, step, user)
    ensures user !in Next(s, step).value.cache
    ensures InFlight(Next(s, step).value, user) <==> InFlight(s, user)
    ensures forall l | l in s.tasks && MayStore(s.tasks[l], user) ::
              l in Next(s, step).value.tasks && Next(s, step).value.tasks[l] == s.tasks[l]
  {
    var next := Next(s, step).value;
    if k: nat :| k in s.tasks && MayStore(s.tasks[k], user) {
      assert next.tasks[k] == s.tasks[k];
    }
    if k: nat :| k in next.tasks && MayStore(next.tasks[k], user) {
      assert s.tasks[k] == next.tasks[k];
    }
  }

  /**
   Forgetting a route, as an invalidation does for each candidate of its host, keeps the user out of
   the cache until somebody reads the user's node again if and only if no lookup is between its
   read and its store: one that is may remember the route afterwards.
   */
  lemma ForgettingIsExact(s: System, step: Step, user: string)
    requires Forgets(s, step, user)
    ensures MayBeCached(Next(s, step).value, user) <==> InFlight(s, user)
  {
    var forgotten := Next(s, step).value;
    ForgottenIsOut(s, step, user);
    if InFlight(s, user) {
      var k :| k in s.tasks && MayStore(s.tasks[k], user);
      if s.tasks[k].phase.Storing? {
        StoringLeadsToHit(forgotten, k);
      } else {
        var plan := ToldLeadsToHit(forgotten, k);
      }
    } else {
      forall plan | LeadsToHit(forgotten, plan, user) ensures false {
        StaysUncached(forgotten, plan, user);
      }
    }
  }

  function RowOn(node: string): Users {
    map["a" := UserRow(Some(node), 1, 1, false, false)]
  }

  lemma OneLabel()
    ensures Split("a") == ["a"] && UserAt("a", 0) == "a"
  {
    assert "a"[1..] == "" && Split("") == [""] && [""][1..] == [];
    assert ['a'] + "" == "a" && Split("a") == Extended('a', [""]) == ["a"];
    assert ["a"][0..] == ["a"];
  }

  lemma Extend(states: seq<System>, steps: seq<Step>, step: Step, next: System)
    requires IsRun(states, steps) && Next(states[|steps|], step) == Some(next)
    ensures IsRun(states + [next], steps + [step])
  {
    var states', steps' := states + [next], steps + [step];
    forall i | 0 <= i < |steps'| ensures Linked(states', steps', i) {
      if i < |steps| {
        assert Linked(states, steps, i);
      }
    }
  }

  const PEERS := map["x" := Peer(0, "x"), "y" := Peer(1, "y")]

  /** A lookup of "a" about to remember that "a" is on "x". */
  function AboutToStore(): Task {
    Resolving("a", 1, 0, Storing("x", Peer(0, "x"), 1), [Answered("x")], [PEERS])
  }

  /** The state in which one lookup is under way and nothing is cached. */
  function Solo(task: Task): System {
    System("n", 1, RowOn("x"), PEERS, map[], map[0 := task])
  }

  lemma SoloStep(states: seq<System>, steps: seq<Step>, task: Task, step: Step, after: Task)
    requires IsRun(states, steps) && states[|steps|] == Solo(task)
    requires task.Resolving? && (step.Ask? || step.Read? || step.Choose?) && step.l == 0
    requires TaskAfter(Solo(task), task, step) == Some(after)
    ensures IsRun(states + [Solo(after)], steps + [step])
  {
    assert Solo(task).tasks[0 := after] == Solo(after).tasks;
    Extend(states, steps, step, Solo(after));
  }

  lemma ReadBeforeTheMove() returns (states: seq<System>, steps: seq<Step>)
    ensures IsRun(states, steps) && states[|steps|] == Solo(AboutToStore())
  {
    OneLabel();
    var begun := Resolving("a", 1, 0, Asking, [], []);
    var missed := begun.(phase := Missed);
    var told := begun.(phase := Told("x", false, 1));
    var s := System("n", 1, RowOn("x"), PEERS, map[], map[]);
    states, steps := [s], [];
    Extend(states, steps, Begin(0, "a"), Solo(begun));
    states, steps := states + [Solo(begun)], steps + [Begin(0, "a")];
    SoloStep(states, steps, begun, Ask(0), missed);
    states, steps := states + [Solo(missed)], steps + [Ask(0)];
    SoloStep(states, steps, missed, Read(0, true), told);
    states, steps := states + [Solo(told)], steps + [Read(0, true)];
    assert [] + [Answered("x")] == [Answered("x")] && [] + [PEERS] == [PEERS];
    SoloStep(states, steps, told, Choose(0), AboutToStore());
    states, steps := states + [Solo(AboutToStore())], steps + [Choose(0)];
  }

  /** The user moves to "y", and the route of "a" is forgotten. */
  lemma ForgottenAfterTheMove() returns (states: seq<System>, steps: seq<Step>)
    ensures IsRun(states, steps) && steps != [] && steps[|steps| - 1] == Forget(1)
    ensures states[|steps|] == System("n", 1, RowOn("y"), PEERS, map[], map[0 := AboutToStore()])
  {
    OneLabel();
    states, steps := ReadBeforeTheMove();
    var moved := System("n", 1, RowOn("y"), PEERS, map[], map[0 := AboutToStore()]);
    Extend(states, steps, Outside(RowOn("y"), PEERS), moved);
    states, steps := states + [moved], steps + [Outside(RowOn("y"), PEERS)];
    var failed := moved.(tasks := map[0 := AboutToStore(), 1 := Forgetting("a", 0)]);
    assert Next(moved, Invalidate(1, "a")) == Some(failed);
    Extend(states, steps, Invalidate(1, "a"), failed);
    states, steps := states + [failed], steps + [Invalidate(1, "a")];
    assert failed.tasks - {1} == moved.tasks;
    assert Next(failed, Forget(1)) == Some(moved);
    Extend(states, steps, Forget(1), moved);
    states, steps := states + [moved], steps + [Forget(1)];
  }

  lemma StoreRemembers(s: System)
    requires s.clock == 1 && s.tasks == map[0 := AboutToStore()]
    ensures var stored := Next(s, Store(0));
            && stored.Some? && stored.value == s.(cache := stored.value.cache, tasks := stored.value.tasks)
            && stored.value.tasks.Keys == {0} && Lookup(stored.value.cache, "a", 1) == Some("x")
  {
    OneLabel();
  }

  /** The first lookup remembers "x" all the same. */
  lemma RememberedAfterwards() returns (states: seq<System>, steps: seq<Step>, k: nat)
    ensures IsRun(states, steps) && k + 2 == |steps| && steps[k] == Forget(1)
    ensures var last := states[|steps|];
            last.self == "n" && last.clock == 1 && last.users == RowOn("y") && 2 !in last.tasks
                && Lookup(last.cache, "a", 1) == Some("x")
  {
    states, steps := ForgottenAfterTheMove();
    k := |steps| - 1;
    StoreRemembers(states[|steps|]);
    var stored := Next(states[|steps|], Store(0)).value;
    Extend(states, steps, Store(0), stored);
    states, steps := states + [stored], steps + [Store(0)];
  }

  /**
   Such a run: a lookup reads that the user is on "x"; the user moves to "y"; a failed tunnel makes
   the route forgotten; the first lookup remembers "x"; and the next lookup is told "x".
   */
  lemma ForgottenRouteReturns() returns (states: seq<System>, steps: seq<Step>, k: nat)
    ensures IsRun(states, steps) && k + 4 == |steps| && steps[k] == Forget(1) && steps[k + 3] == Ask(2)
    ensures var last := states[|steps|];
            && 2 in last.tasks && last.tasks[2].Resolving? && last.tasks[2].phase == Told("x", true, 1)
            && GetUserNodeID(last.users, "a") == "y"
  {
    OneLabel();
    states, steps, k := RememberedAfterwards();
    var begun := Next(states[|steps|], Begin(2, "a")).value;
    Extend(states, steps, Begin(2, "a"), begun);
    states, steps := states + [begun], steps + [Begin(2, "a")];
    var told := Next(begun, Ask(2)).value;
    Extend(states, steps, Ask(2), told);
    states, steps := states + [told], steps + [Ask(2)];
  }
}
