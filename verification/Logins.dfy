/**
 Login decisions from cached account flags. A login that finds flags decides at once and, if
 it accepts, writes the login in the background; otherwise it writes first and decides from
 the row it gets back. Either way the flags of the written row are cached for a minute.
 Anything else may change the user table at any time.
 */
module Logins {
  import opened Common
  import opened UserTable
  import opened UserStore
  import opened ExpiringCache

  const FLAGS_TIME_TO_LIVE: Time := 60
  const FLAGS_MAX_ENTRIES: nat := 4096

  datatype Flags = Flags(administrator: bool, disabled: bool)

  function FlagsOf(row: UserRow): Flags {
    Flags(row.administrator, row.disabled)
  }

  type FlagCache = map<string, Entry<Flags>>

  /** A login write: about to take effect, or back with the flags it read and when. */
  datatype Phase = Writing | Returned(flags: Flags, at: Time)

  datatype Attempt = Attempt(user: string, background: bool, phase: Phase)

  datatype System = System(clock: Time, users: Users, cache: FlagCache, attempts: map<nat, Attempt>)

  datatype Step =
    | Tick(to: Time)
    | Outside(changed: Users)
    | Login(a: nat, user: string)
    | Write(a: nat, node: string, stamp: Time, ok: bool)
    | Store(a: nat)
    | Revoke(user: string)

  datatype Decision = Decision(user: string, flags: Flags) {
    predicate Accepted() { !flags.disabled }
  }

  /** A lookup drops the entry it finds expired. */
  function AfterLookup(cache: FlagCache, user: string, now: Time): FlagCache {
    if user in cache && Expired(cache[user], now) then cache - {user} else cache
  }

  function AfterStore(cache: FlagCache, user: string, flags: Flags, now: Time): FlagCache {
    Stored(cache, user, flags, now, FLAGS_TIME_TO_LIVE, FLAGS_MAX_ENTRIES)
  }

  function LoginStep(s: System, a: nat, user: string): System {
    var found := Lookup(s.cache, user, s.clock);
    var next := s.(cache := AfterLookup(s.cache, user, s.clock));
    if found.Some? && found.value.disabled then next
    else next.(attempts := s.attempts[a := Attempt(user, found.Some?, Writing)])
  }

  function WriteStep(s: System, a: nat, attempt: Attempt, node: string, stamp: Time, ok: bool): System {
    if !ok then s.(attempts := s.attempts - {a})
    else
      var users := UserTable.UpsertUserOnConnect(s.users, attempt.user, node, stamp);
      var returned := attempt.(phase := Returned(FlagsOf(users[attempt.user]), s.clock));
      s.(users := users, attempts := s.attempts[a := returned])
  }

  function Next(s: System, step: Step): Option<System> {
    match step
    case Tick(to) => if to >= s.clock then Some(s.(clock := to)) else None
    case Outside(changed) => Some(s.(users := changed))
    case Login(a, user) => if a in s.attempts then None else Some(LoginStep(s, a, user))
    case Write(a, node, stamp, ok) =>
      if a in s.attempts && s.attempts[a].phase.Writing?
      then Some(WriteStep(s, a, s.attempts[a], node, stamp, ok))
      else None
    case Store(a) =>
      if a in s.attempts && s.attempts[a].phase.Returned?
      then Some(s.(
        cache := AfterStore(s.cache, s.attempts[a].user, s.attempts[a].phase.flags, s.clock),
        attempts := s.attempts - {a}))
      else None
    case Revoke(user) => Some(s.(cache := s.cache - {user}))
  }

  /** The decision a step takes: from the cache at once, otherwise when the written row's flags are stored. */
  function Decides(s: System, step: Step): Option<Decision> {
    match step
    case Login(a, user) =>
      var found := Lookup(s.cache, user, s.clock);
      if a in s.attempts || found.None? then None else Some(Decision(user, found.value))
    case Store(a) =>
      if a in s.attempts && s.attempts[a].phase.Returned? && !s.attempts[a].background
      then Some(Decision(s.attempts[a].user, s.attempts[a].phase.flags))
      else None
    case _ => None
  }

  ghost predicate IsRun(states: seq<System>, steps: seq<Step>) {
    && |states| == |steps| + 1
    && states[0].cache == map[] && states[0].attempts == map[]
    && forall i | 0 <= i < |steps| :: Next(states[i], steps[i]) == Some(states[i + 1])
  }

  /** What a write read is stored within the latency. */
  predicate Prompt(s: System, latency: Time) {
    forall a | a in s.attempts && s.attempts[a].phase.Returned? :: s.clock <= s.attempts[a].phase.at + latency
  }

  /** The row held these flags at a moment of the run that is not older than `since`. */
  ghost predicate Held(states: seq<System>, i: nat, user: string, flags: Flags, since: Time) {
    exists j :: 0 <= j <= i < |states| && HeldAt(states[j], user, flags) && states[j].clock >= since
  }

  predicate HeldAt(s: System, user: string, flags: Flags) {
    user in s.users && FlagsOf(s.users[user]) == flags
  }

  ghost predicate AttemptsSound(states: seq<System>, i: nat)
    requires i < |states|
  {
    forall a | a in states[i].attempts && states[i].attempts[a].phase.Returned? ::
      var attempt := states[i].attempts[a];
      Held(states, i, attempt.user, attempt.phase.flags, attempt.phase.at)
  }

  ghost predicate CacheSound(states: seq<System>, i: nat, latency: Time)
    requires i < |states|
  {
    forall user | user in states[i].cache ::
      Held(states, i, user, states[i].cache[user].value, states[i].cache[user].expiresAt - FLAGS_TIME_TO_LIVE - latency)
  }

  lemma HeldLater(states: seq<System>, i: nat, user: string, flags: Flags, since: Time, earlier: Time)
    requires Held(states, i, user, flags, since) && i + 1 < |states| && earlier <= since
    ensures Held(states, i + 1, user, flags, earlier)
  {
    var j :| 0 <= j <= i < |states| && HeldAt(states[j], user, flags) && states[j].clock >= since;
    assert 0 <= j <= i + 1 < |states| && HeldAt(states[j], user, flags) && states[j].clock >= earlier;
  }

  lemma StepKeepsAttempts(states: seq<System>, steps: seq<Step>, i: nat)
    requires i + 1 < |states| == |steps| + 1 && Next(states[i], steps[i]) == Some(states[i + 1])
    requires AttemptsSound(states, i)
    ensures AttemptsSound(states, i + 1)
  {
    var s, s' := states[i], states[i + 1];
    forall a | a in s'.attempts && s'.attempts[a].phase.Returned?
      ensures Held(states, i + 1, s'.attempts[a].user, s'.attempts[a].phase.flags, s'.attempts[a].phase.at)
    {
      var attempt := s'.attempts[a];
      if a in s.attempts && s.attempts[a] == attempt {
        HeldLater(states, i, attempt.user, attempt.phase.flags, attempt.phase.at, attempt.phase.at);
      } else {
        assert steps[i].Write?;
        assert HeldAt(states[i + 1], attempt.user, attempt.phase.flags);
      }
    }
  }

  lemma StepKeepsCache(states: seq<System>, steps: seq<Step>, i: nat, latency: Time)
    requires i + 1 < |states| == |steps| + 1 && Next(states[i], steps[i]) == Some(states[i + 1])
    requires AttemptsSound(states, i) && CacheSound(states, i, latency) && Prompt(states[i], latency)
    ensures CacheSound(states, i + 1, latency)
  {
    var s, s' := states[i], states[i + 1];
    KeptIsBounded(s.cache, s.clock, FLAGS_MAX_ENTRIES);
    forall user | user in s'.cache
      ensures Held(states, i + 1, user, s'.cache[user].value, s'.cache[user].expiresAt - FLAGS_TIME_TO_LIVE - latency)
    {
      var entry := s'.cache[user];
      if user in s.cache && s.cache[user] == entry {
        HeldLater(states, i, user, entry.value, entry.expiresAt - FLAGS_TIME_TO_LIVE - latency,
            entry.expiresAt - FLAGS_TIME_TO_LIVE - latency);
      } else {
        assert steps[i].Store?;
        var attempt := s.attempts[steps[i].a];
        HeldLater(states, i, user, entry.value, attempt.phase.at, entry.expiresAt - FLAGS_TIME_TO_LIVE - latency);
      }
    }
  }

  lemma {:induction false} RunIsSound(states: seq<System>, steps: seq<Step>, i: nat, latency: Time)
    requires IsRun(states, steps) && i < |states| && forall k | 0 <= k < |states| :: Prompt(states[k], latency)
    ensures AttemptsSound(states, i) && CacheSound(states, i, latency)
  {
    if i > 0 {
      RunIsSound(states, steps, i - 1, latency);
      assert Next(states[i - 1], steps[i - 1]) == Some(states[i - 1 + 1]);
      StepKeepsAttempts(states, steps, i - 1);
      StepKeepsCache(states, steps, i - 1, latency);
    }
  }

  /**
   Staleness does not compound: whatever the interleaving of logins, background writes,
   revocations and changes to the table, every decision uses flags that the user's row held
   at most a minute and the latency of a store earlier.
   */
  lemma DecisionsAreRecent(states: seq<System>, steps: seq<Step>, i: nat, latency: Time)
    requires IsRun(states, steps) && i < |steps| && latency >= 0
    requires forall k | 0 <= k < |states| :: Prompt(states[k], latency)
    requires Decides(states[i], steps[i]).Some?
    ensures var d := Decides(states[i], steps[i]).value;
            Held(states, i, d.user, d.flags, states[i].clock - FLAGS_TIME_TO_LIVE - latency)
  {
    RunIsSound(states, steps, i, latency);
    var s, d := states[i], Decides(states[i], steps[i]).value;
    var since := if steps[i].Login? then s.cache[d.user].expiresAt - FLAGS_TIME_TO_LIVE - latency
        else s.attempts[steps[i].a].phase.at;
    assert Held(states, i, d.user, d.flags, since);
    var j :| 0 <= j <= i < |states| && HeldAt(states[j], d.user, d.flags) && states[j].clock >= since;
  }

  /**
   So every decision is right about some moment of that window: it rejects if and only if the
   account was disabled then, and grants administrator rights if and only if it had them.
   */
  lemma DecisionsWereRight(states: seq<System>, steps: seq<Step>, i: nat, latency: Time) returns (j: nat)
    requires IsRun(states, steps) && i < |steps| && latency >= 0
    requires forall k | 0 <= k < |states| :: Prompt(states[k], latency)
    requires Decides(states[i], steps[i]).Some?
    ensures j <= i && states[j].clock >= states[i].clock - FLAGS_TIME_TO_LIVE - latency
    ensures var d := Decides(states[i], steps[i]).value;
            && d.user in states[j].users
            && (d.Accepted() <==> !states[j].users[d.user].disabled)
            && (d.flags.administrator <==> states[j].users[d.user].administrator)
  {
    DecisionsAreRecent(states, steps, i, latency);
    var d, since := Decides(states[i], steps[i]).value, states[i].clock - FLAGS_TIME_TO_LIVE - latency;
    j :| 0 <= j <= i < |states| && HeldAt(states[j], d.user, d.flags) && states[j].clock >= since;
  }

  lemma StoreIsBounded(cache: FlagCache, user: string, flags: Flags, now: Time)
    ensures |AfterStore(cache, user, flags, now)| <= FLAGS_MAX_ENTRIES
  {
    KeptIsBounded(cache, now, FLAGS_MAX_ENTRIES);
    UpdateSize(Kept(cache, now, FLAGS_MAX_ENTRIES), user, Entry(flags, now + FLAGS_TIME_TO_LIVE));
  }

  lemma DropIsSmaller(cache: FlagCache, user: string)
    ensures |cache - {user}| <= |cache|
  {
    assert (cache - {user}).Keys == cache.Keys - {user};
  }

  /** The cache never holds more than its bound. */
  lemma {:induction false} CacheIsBounded(states: seq<System>, steps: seq<Step>, i: nat)
    requires IsRun(states, steps) && i < |states|
    ensures |states[i].cache| <= FLAGS_MAX_ENTRIES
  {
    if i > 0 {
      CacheIsBounded(states, steps, i - 1);
      var s := states[i - 1];
      assert Next(s, steps[i - 1]) == Some(states[i - 1 + 1]);
      match steps[i - 1]
      case Store(a) => StoreIsBounded(s.cache, s.attempts[a].user, s.attempts[a].phase.flags, s.clock);
      case Login(_, user) => DropIsSmaller(s.cache, user);
      case Revoke(user) => DropIsSmaller(s.cache, user);
      case _ =>
    }
  }

  /** However many logins a disabled user tries, the row keeps its presence until something else changes it. */
  lemma {:induction false} DisabledKeepsPresence(states: seq<System>, steps: seq<Step>, i: nat, j: nat, user: string)
    requires IsRun(states, steps) && i <= j < |states| && user in states[i].users && states[i].users[user].disabled
    requires forall k | i <= k < j :: !steps[k].Outside?
    ensures user in states[j].users && states[j].users[user].disabled
    ensures SamePresence(states[j].users[user], states[i].users[user])
    decreases j
  {
    if i < j {
      DisabledKeepsPresence(states, steps, i, j - 1, user);
      assert Next(states[j - 1], steps[j - 1]) == Some(states[j - 1 + 1]);
    }
  }

  /** Every background write in flight belongs to a login that was accepted. */
  lemma {:induction false} BackgroundMeansAccepted(states: seq<System>, steps: seq<Step>, i: nat, a: nat)
    returns (j: nat)
    requires IsRun(states, steps) && i < |states| && a in states[i].attempts && states[i].attempts[a].background
    ensures j < i && steps[j] == Login(a, states[i].attempts[a].user)
    ensures Decides(states[j], steps[j]).Some? && Decides(states[j], steps[j]).value.Accepted()
  {
    assert i > 0;
    var s, step := states[i - 1], steps[i - 1];
    assert Next(s, step) == Some(states[i - 1 + 1]);
    if step.Login? && step.a == a {
      j := i - 1;
    } else {
      j := BackgroundMeansAccepted(states, steps, i - 1, a);
    }
  }

  /** A login starts a write if and only if the cache does not reject it, in the background if it accepts. */
  lemma WritesUnlessRejected(s: System, a: nat, user: string)
    requires a !in s.attempts
    ensures var next, decision := Next(s, Login(a, user)).value, Decides(s, Login(a, user));
            && (a in next.attempts <==> !(decision.Some? && !decision.value.Accepted()))
            && (a in next.attempts ==> next.attempts[a] == Attempt(user, decision.Some?, Writing))
            && next.users == s.users
  {
  }

  function Play(s: System, plan: seq<Step>): Option<System>
    decreases |plan|
  {
    if plan == [] then Some(s)
    else
      var next := Next(s, plan[0]);
      if next.None? then None else Play(next.value, plan[1..])
  }

  predicate IsLoginOf(step: Step, user: string) {
    step.Login? && step.user == user
  }

  predicate InFlight(s: System, user: string) {
    exists a | a in s.attempts :: s.attempts[a].user == user
  }

  /** Some steps lead to a state where the user's next login is decided from the cache. */
  ghost predicate MayBeCached(s: System, user: string) {
    exists plan :: LeadsToHit(s, plan, user)
  }

  ghost predicate LeadsToHit(s: System, plan: seq<Step>, user: string) {
    && (forall i | 0 <= i < |plan| :: !IsLoginOf(plan[i], user))
    && Play(s, plan).Some?
    && Lookup(Play(s, plan).value.cache, user, Play(s, plan).value.clock).Some?
  }

  lemma StepStaysUncached(s: System, step: Step, user: string)
    requires user !in s.cache && !InFlight(s, user) && Next(s, step).Some? && !IsLoginOf(step, user)
    ensures user !in Next(s, step).value.cache && !InFlight(Next(s, step).value, user)
  {
    var next := Next(s, step).value;
    match step
    case Store(a) =>
      KeptIsBounded(s.cache, s.clock, FLAGS_MAX_ENTRIES);
      assert next.attempts == s.attempts - {a};
    case Write(a, _, _, _) => assert forall b | b in next.attempts ::
        b in s.attempts && next.attempts[b].user == s.attempts[b].user;
    case Login(a, other) => assert forall b | b in next.attempts && b != a ::
        b in s.attempts && next.attempts[b] == s.attempts[b];
    case _ =>
  }

  lemma {:induction false} StaysUncached(s: System, plan: seq<Step>, user: string)
    requires user !in s.cache && !InFlight(s, user) && Play(s, plan).Some?
    requires forall i | 0 <= i < |plan| :: !IsLoginOf(plan[i], user)
    ensures user !in Play(s, plan).value.cache
    decreases |plan|
  {
    if plan != [] {
      StepStaysUncached(s, plan[0], user);
      StaysUncached(Next(s, plan[0]).value, plan[1..], user);
    }
  }

  lemma StoreLeadsToHit(s: System, a: nat)
    requires a in s.attempts && s.attempts[a].phase.Returned?
    ensures LeadsToHit(s, [Store(a)], s.attempts[a].user)
  {
    assert [Store(a)][1..] == [];
    assert Play(s, [Store(a)]) == Play(Next(s, Store(a)).value, []);
  }

  lemma WriteLeadsToHit(s: System, a: nat)
    requires a in s.attempts && s.attempts[a].phase.Writing?
    ensures LeadsToHit(s, [Write(a, "", s.clock, true), Store(a)], s.attempts[a].user)
  {
    var write := Write(a, "", s.clock, true);
    var next := Next(s, write).value;
    StoreLeadsToHit(next, a);
    assert [write, Store(a)][1..] == [Store(a)];
    assert Play(s, [write, Store(a)]) == Play(next, [Store(a)]);
  }

  /**
   Revoking a user's flags, as a kick does, makes the next login read the database if and only
   if no login write of that user is in flight: one that is may store its flags afterwards.
   */
  lemma RevokeIsExact(s: System, user: string)
    ensures MayBeCached(Next(s, Revoke(user)).value, user) <==> InFlight(s, user)
  {
    var revoked := Next(s, Revoke(user)).value;
    if InFlight(s, user) {
      var a :| a in s.attempts && s.attempts[a].user == user;
      if s.attempts[a].phase.Writing? {
        WriteLeadsToHit(revoked, a);
      } else {
        StoreLeadsToHit(revoked, a);
      }
    } else {
      forall plan | LeadsToHit(revoked, plan, user) ensures false {
        StaysUncached(revoked, plan, user);
      }
    }
  }

  datatype LoginError = InvalidCredentials | StatementFailed

  /** What a login with these flags gets: administrator rights or not, unless the account is disabled. */
  function Verdict(flags: Flags): Result<bool, LoginError> {
    if flags.disabled then Err(InvalidCredentials) else Ok(flags.administrator)
  }

  /** The login callback of a node, once the certificate has been accepted. */
  class Authenticator {
    const flags: Cache<Flags>
    const database: Database
    const nodeId: string

    ghost predicate Valid()
      reads flags
    {
      flags.Valid() && flags.timeToLive == FLAGS_TIME_TO_LIVE && flags.maxEntries == FLAGS_MAX_ENTRIES
    }

    constructor (database: Database, nodeId: string)
      ensures Valid() && fresh(flags) && flags.entries == map[] && this.database == database && this.nodeId == nodeId
    {
      this.database := database;
      this.nodeId := nodeId;
      flags := new Cache<Flags>(FLAGS_TIME_TO_LIVE, FLAGS_MAX_ENTRIES);
    }

    /** Cached flags decide without touching the database; a rejection from them starts no write. */
    method Authenticate(user: string, now: Time, stamp: Time, ok: bool, storedAt: Time)
      returns (result: Result<bool, LoginError>, background: bool)
      requires Valid()
      modifies flags, database`users
      ensures Valid()
      ensures var found, cache := Lookup(old(flags.entries), user, now), AfterLookup(old(flags.entries), user, now);
              match found
              case Some(cached) =>
                && database.users == old(database.users) && flags.entries == cache
                && result == Verdict(cached) && background == result.Ok?
              case None =>
                && !background
                && if ok then
                     && database.users == UserTable.UpsertUserOnConnect(old(database.users), user, nodeId, stamp)
                     && flags.entries == AfterStore(cache, user, FlagsOf(database.users[user]), storedAt)
                     && result == Verdict(FlagsOf(database.users[user]))
                   else
                     database.users == old(database.users) && flags.entries == cache && result == Err(StatementFailed)
      ensures result.Ok? || result == Err(InvalidCredentials) ==>
                var found := Lookup(old(flags.entries), user, now);
                && (found.None? ==> user in database.users)
                && var disabled := if found.Some? then found.value.disabled else database.users[user].disabled;
                   var administrator :=
                     if found.Some? then found.value.administrator else database.users[user].administrator;
                   (result.Err? <==> disabled) && (result == Ok(true) <==> !disabled && administrator)
    {
      var found := flags.GetOrDrop(user, now);
      var decided: Flags;
      if found.None? {
        if !ok {
          return Err(StatementFailed), false;
        }
        var row := database.UpsertUserOnConnect(user, nodeId, stamp);
        flags.Put(user, Flags(row.administrator, row.disabled), storedAt, storedAt);
        decided := Flags(row.administrator, row.disabled);
      } else {
        decided := found.value;
      }
      if decided.disabled {
        return Err(InvalidCredentials), false;
      }
      return Ok(decided.administrator), found.Some?;
    }

    /** The background half of a login that was decided from the cache. */
    method RecordLogin(user: string, stamp: Time, ok: bool, storedAt: Time)
      requires Valid()
      modifies flags, database`users
      ensures Valid()
      ensures if ok then
                && database.users == UserTable.UpsertUserOnConnect(old(database.users), user, nodeId, stamp)
                && flags.entries == AfterStore(old(flags.entries), user, FlagsOf(database.users[user]), storedAt)
              else
                database.users == old(database.users) && flags.entries == old(flags.entries)
    {
      if ok {
        var row := database.UpsertUserOnConnect(user, nodeId, stamp);
        flags.Put(user, Flags(row.administrator, row.disabled), storedAt, storedAt);
      }
    }
  }
}
