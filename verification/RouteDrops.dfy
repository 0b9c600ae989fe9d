/**
 Routes that are forgotten, over any run of lookups and invalidations: an invalidation forgets every
 candidate of its host, and a lookup that was told a cached route without a peer forgets it.
 */
module RouteDrops {
  import opened Common
  import opened Hosts
  import opened Routes
  import opened RouteRaces

  /** The step of the task that forgets this user. */
  predicate ForgetsAt(states: seq<System>, steps: seq<Step>, k: nat, l: nat, user: string)
    requires k < |steps| && |states| == |steps| + 1
  {
    && (steps[k] == Forget(l) || steps[k] == Drop(l)) && l in states[k].tasks
    && Candidate(states[k].tasks[l]) == user && user !in states[k + 1].cache
  }

  lemma ForgetStepForgets(s: System, l: nat)
    requires Next(s, Forget(l)).Some? && Candidate(s.tasks[l]) != ""
    ensures Candidate(s.tasks[l]) !in Next(s, Forget(l)).value.cache
  {
  }

  /** Nobody else touches a task. */
  lemma OthersLeaveTask(s: System, step: Step, l: nat)
    requires Next(s, step).Some? && l in s.tasks
    requires step.Tick? || step.Outside? || step.l != l
    ensures l in Next(s, step).value.tasks && Next(s, step).value.tasks[l] == s.tasks[l]
  {
  }

  lemma InvalidationMoves(s: System, step: Step, l: nat)
    requires Next(s, step).Some? && l in s.tasks && s.tasks[l].Forgetting?
    ensures var s', task := Next(s, step).value, s.tasks[l];
            || (l in s'.tasks && s'.tasks[l] == task)
            || (step == Forget(l) && l in s'.tasks && s'.tasks[l] == task.(index := task.index + 1))
            || (step == Forget(l) && l !in s'.tasks && task.index + 1 == |Split(task.host)|)
  {
    if step.Tick? || step.Outside? || step.l != l {
      OthersLeaveTask(s, step, l);
    }
  }

  /** The invalidation is on, and has forgotten the candidate if it is past it. */
  predicate HasForgotten(states: seq<System>, steps: seq<Step>, i: nat, j: nat, l: nat, host: string, n: nat)
    requires j < |states| == |steps| + 1 && n < |Split(host)|
  {
    && l in states[j].tasks && states[j].tasks[l].Forgetting? && states[j].tasks[l].host == host
    && (n < states[j].tasks[l].index ==> exists k | i < k < j :: ForgetsAt(states, steps, k, l, UserAt(host, n)))
  }

  lemma OneMoreForgotten(states: seq<System>, steps: seq<Step>, i: nat, j: nat, l: nat, host: string, n: nat)
    requires IsRun(states, steps) && i < j - 1 && j < |states| && n < |Split(host)| && UserAt(host, n) != ""
    requires HasForgotten(states, steps, i, j - 1, l, host, n) && l in states[j].tasks
    ensures HasForgotten(states, steps, i, j, l, host, n)
  {
    var s, step := states[j - 1], steps[j - 1];
    assert Linked(states, steps, j - 1);
    InvalidationMoves(s, step, l);
    if n < s.tasks[l].index {
      var k :| i < k < j - 1 && ForgetsAt(states, steps, k, l, UserAt(host, n));
    } else if n < states[j].tasks[l].index {
      ForgetStepForgets(s, l);
      assert ForgetsAt(states, steps, j - 1, l, UserAt(host, n));
    }
  }

  lemma {:induction false} ForgetsInOrder(states: seq<System>, steps: seq<Step>, i: nat, j: nat, l: nat, host: string,
      n: nat)
    requires IsRun(states, steps) && i < j < |states| && n < |Split(host)| && UserAt(host, n) != ""
    requires steps[i] == Invalidate(l, host) && forall k | i < k <= j :: l in states[k].tasks
    ensures HasForgotten(states, steps, i, j, l, host, n)
    decreases j
  {
    if i == j - 1 {
      assert Linked(states, steps, i);
    } else {
      ForgetsInOrder(states, steps, i, j - 1, l, host, n);
      OneMoreForgotten(states, steps, i, j, l, host, n);
    }
  }

  lemma LastForgets(states: seq<System>, steps: seq<Step>, j: nat, l: nat)
    requires IsRun(states, steps) && j < |steps| && l in states[j].tasks && states[j].tasks[l].Forgetting?
    requires l !in states[j + 1].tasks && Candidate(states[j].tasks[l]) != ""
    ensures ForgetsAt(states, steps, j, l, Candidate(states[j].tasks[l]))
  {
    assert Linked(states, steps, j);
    InvalidationMoves(states[j], steps[j], l);
    ForgetStepForgets(states[j], l);
  }

  lemma LastCandidate(states: seq<System>, steps: seq<Step>, j: nat, l: nat)
    requires IsRun(states, steps) && j < |steps| && l in states[j].tasks && states[j].tasks[l].Forgetting?
    requires l !in states[j + 1].tasks
    ensures states[j].tasks[l].index + 1 == |Split(states[j].tasks[l].host)|
  {
    assert Linked(states, steps, j);
    InvalidationMoves(states[j], steps[j], l);
  }

  /** By the time an invalidation is over, it has forgotten every user that a lookup of the host can ask for. */
  lemma InvalidationForgetsAll(states: seq<System>, steps: seq<Step>, i: nat, j: nat, l: nat, host: string,
      user: string)
    returns (k: nat)
    requires IsRun(states, steps) && i < j < |steps| && steps[i] == Invalidate(l, host)
    requires l !in states[j + 1].tasks && forall k | i < k <= j :: l in states[k].tasks
    requires user in Candidates(host)
    ensures i < k <= j && ForgetsAt(states, steps, k, l, user)
  {
    var n := CandidateIndex(host, user, |Split(host)|);
    ForgetsInOrder(states, steps, i, j, l, host, n);
    LastCandidate(states, steps, j, l);
    if n < states[j].tasks[l].index {
      k :| i < k < j && ForgetsAt(states, steps, k, l, UserAt(host, n));
    } else {
      k := j;
      LastForgets(states, steps, j, l);
    }
  }

  // A cached route without a peer.

  /** The lookup has been told a node from the cache that it has no connection to. */
  predicate ToldDeadRoute(s: System, l: nat) {
    && l in s.tasks && s.tasks[l].Resolving? && s.tasks[l].phase.Told? && s.tasks[l].phase.cached
    && s.tasks[l].phase.node !in s.peers
  }

  predicate IsDropping(s: System, l: nat, user: string) {
    l in s.tasks && s.tasks[l].Resolving? && s.tasks[l].phase.Dropping? && Candidate(s.tasks[l]) == user
  }

  lemma DroppingMoves(s: System, step: Step, l: nat, user: string)
    requires Next(s, step).Some? && IsDropping(s, l, user)
    ensures IsDropping(Next(s, step).value, l, user) || (step == Drop(l) && user !in Next(s, step).value.cache)
  {
    if step.Tick? || step.Outside? || step.l != l {
      OthersLeaveTask(s, step, l);
    }
  }

  lemma ChoiceDrops(s: System, l: nat)
    requires ToldDeadRoute(s, l) && Next(s, Choose(l)).Some?
    ensures IsDropping(Next(s, Choose(l)).value, l, Candidate(s.tasks[l]))
  {
  }

  /**
   A lookup that was told a cached route to a node without a connection takes the route out of the
   cache before it does anything else.
   */
  lemma {:induction false} DeadRouteIsDropped(states: seq<System>, steps: seq<Step>, i: nat, j: nat, l: nat)
    returns (k: nat)
    requires IsRun(states, steps) && i < j < |states| && steps[i] == Choose(l) && ToldDeadRoute(states[i], l)
    requires !IsDropping(states[j], l, Candidate(states[i].tasks[l]))
    ensures i < k < j && steps[k] == Drop(l) && ForgetsAt(states, steps, k, l, Candidate(states[i].tasks[l]))
    decreases j
  {
    var user := Candidate(states[i].tasks[l]);
    if i == j - 1 {
      assert Linked(states, steps, i);
      ChoiceDrops(states[i], l);
      assert false;
    } else if IsDropping(states[j - 1], l, user) {
      assert Linked(states, steps, j - 1);
      DroppingMoves(states[j - 1], steps[j - 1], l, user);
      k := j - 1;
    } else {
      k := DeadRouteIsDropped(states, steps, i, j - 1, l);
    }
  }
}
