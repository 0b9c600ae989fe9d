/**
 Finding the peer node of a user through the route cache. The lookup returns what the cache-free
 lookup would return on a database in which every candidate holds its current value or one it
 held a bounded time ago, whatever other lookups do to the cache meanwhile.
 */
module Routes {
  import opened Common
  import opened Hosts
  import opened ExpiringCache

  /** How long a route is remembered, and how many are. */
  const ROUTE_TIME_TO_LIVE: Time := 15
  const ROUTE_MAX_ENTRIES: nat := 4096

  /** The outcome of asking the database for a user's node: unknown users and NULL read as empty. */
  datatype Answer = Answered(nodeId: string) | Failed

  datatype Peer = Peer(id: nat, nodeId: string)

  /** When the n-th candidate looks into the cache, reads the database, sweeps and stores. */
  datatype Moment = Moment(get: Time, read: Time, sweep: Time, store: Time)

  type Database = (string, Time) -> Answer
  type Entries = map<string, Entry<string>>

  /** The peer an answer leads to: some other node with a live connection. */
  function Reached(self: string, answer: Answer, peers: map<string, Peer>): Option<Peer> {
    if answer.Answered? && answer.nodeId != "" && answer.nodeId != self && answer.nodeId in peers
    then Some(peers[answer.nodeId])
    else None
  }

  /** The cache-free lookup, on the answers each candidate gets. */
  function DirectLookup(self: string, host: string, index: nat, answers: seq<Answer>,
      peersAt: nat -> map<string, Peer>): Option<Peer>
    requires index <= |Split(host)| == |answers|
    decreases |Split(host)| - index
  {
    if self == "" || index == |Split(host)| then None
    else
      var reached := Reached(self, answers[index], peersAt(index));
      if UserAt(host, index) != "" && reached.Some? then reached
      else DirectLookup(self, host, index + 1, answers, peersAt)
  }

  /** The candidate's answer leads to a peer. */
  predicate Leads(self: string, host: string, answers: seq<Answer>, peersAt: nat -> map<string, Peer>, i: nat)
    requires |Split(host)| == |answers|
  {
    i < |answers| && UserAt(host, i) != "" && Reached(self, answers[i], peersAt(i)).Some?
  }

  /** The candidate leads to this peer, and of all candidates that lead to one it has the longest user. */
  predicate LeadsFirst(self: string, host: string, answers: seq<Answer>, peersAt: nat -> map<string, Peer>,
      i: nat, peer: Peer)
    requires |Split(host)| == |answers|
  {
    && Leads(self, host, answers, peersAt, i) && Reached(self, answers[i], peersAt(i)) == Some(peer)
    && forall k | 0 <= k < |answers| && k != i && Leads(self, host, answers, peersAt, k) ::
         |UserAt(host, k)| < |UserAt(host, i)|
  }

  /**
   What the right result is: the peer that the longest user with a reachable node leads to, and
   none if there is no such user or this node is not part of the mesh.
   */
  predicate IsBestRoute(self: string, host: string, answers: seq<Answer>, peersAt: nat -> map<string, Peer>,
      found: Option<Peer>)
    requires |Split(host)| == |answers|
  {
    match found
    case None => self == "" || forall i | 0 <= i < |answers| :: !Leads(self, host, answers, peersAt, i)
    case Some(peer) =>
      self != "" && exists i | 0 <= i < |answers| :: LeadsFirst(self, host, answers, peersAt, i, peer)
  }

  lemma {:induction false} FirstThatLeads(self: string, host: string, from: nat, answers: seq<Answer>,
      peersAt: nat -> map<string, Peer>) returns (i: nat)
    requires from <= |Split(host)| == |answers| && self != ""
    ensures forall k | from <= k < i :: !Leads(self, host, answers, peersAt, k)
    ensures match DirectLookup(self, host, from, answers, peersAt)
            case None => i == |answers|
            case Some(peer) =>
              Leads(self, host, answers, peersAt, i) && Reached(self, answers[i], peersAt(i)) == Some(peer)
    decreases |answers| - from
  {
    i := from;
    if from < |answers| && !Leads(self, host, answers, peersAt, from) {
      i := FirstThatLeads(self, host, from + 1, answers, peersAt);
    }
  }

  /** The cache-free lookup finds the best route. */
  lemma DirectIsBest(self: string, host: string, answers: seq<Answer>, peersAt: nat -> map<string, Peer>)
    requires |Split(host)| == |answers|
    ensures IsBestRoute(self, host, answers, peersAt, DirectLookup(self, host, 0, answers, peersAt))
  {
    var found := DirectLookup(self, host, 0, answers, peersAt);
    if self != "" {
      var i := FirstThatLeads(self, host, 0, answers, peersAt);
      if found.Some? {
        forall k | 0 <= k < |answers| && k != i && Leads(self, host, answers, peersAt, k)
          ensures |UserAt(host, k)| < |UserAt(host, i)|
        {
          UsersShrink(host, i, k);
        }
        assert LeadsFirst(self, host, answers, peersAt, i, found.value);
      }
    }
  }

  /** There is only one right result. */
  lemma BestRouteIsUnique(self: string, host: string, answers: seq<Answer>, peersAt: nat -> map<string, Peer>,
      found: Option<Peer>)
    requires |Split(host)| == |answers|
    requires IsBestRoute(self, host, answers, peersAt, found)
    ensures found == DirectLookup(self, host, 0, answers, peersAt)
  {
    var direct := DirectLookup(self, host, 0, answers, peersAt);
    DirectIsBest(self, host, answers, peersAt);
    if found.Some? && direct.Some? {
      var i :| 0 <= i < |answers| && LeadsFirst(self, host, answers, peersAt, i, found.value);
      var k :| 0 <= k < |answers| && LeadsFirst(self, host, answers, peersAt, k, direct.value);
      assert i == k;
    }
  }

  /** This user is what follows some cut of the host, and its answer leads to a peer. */
  predicate IsReachable(self: string, host: string, told: string -> Answer, peers: map<string, Peer>,
      service: string, user: string)
  {
    IsCut(host, service, user) && user != "" && Reached(self, told(user), peers).Some?
  }

  /** The reachable user that is longer than every other one, and the peer it leads to. */
  ghost predicate IsLongest(self: string, host: string, told: string -> Answer, peers: map<string, Peer>,
      service: string, user: string, peer: Peer)
  {
    && IsReachable(self, host, told, peers, service, user) && Reached(self, told(user), peers) == Some(peer)
    && forall service', user' | IsReachable(self, host, told, peers, service', user') ::
         user' == user || |user'| < |user|
  }

  /**
   While neither the users nor the peers change, the lookup answers for the longest of the users
   that the host may be cut to and that lead to a peer.
   */
  lemma LongestUserWins(self: string, host: string, told: string -> Answer, peers: map<string, Peer>,
      answers: seq<Answer>, peersAt: nat -> map<string, Peer>)
    requires self != "" && |Split(host)| == |answers|
    requires forall i | 0 <= i < |answers| :: answers[i] == told(UserAt(host, i)) && peersAt(i) == peers
    ensures match DirectLookup(self, host, 0, answers, peersAt)
            case None => forall service, user :: !IsReachable(self, host, told, peers, service, user)
            case Some(peer) => exists service, user :: IsLongest(self, host, told, peers, service, user, peer)
  {
    var i := FirstThatLeads(self, host, 0, answers, peersAt);
    forall service, user | IsReachable(self, host, told, peers, service, user)
      ensures i < |answers| && (user == UserAt(host, i) || |user| < |UserAt(host, i)|)
    {
      var k := CutIsIndex(host, service, user);
      assert Leads(self, host, answers, peersAt, k);
      if i < k {
        UsersShrink(host, i, k);
      }
    }
    var found := DirectLookup(self, host, 0, answers, peersAt);
    if found.Some? {
      IndexIsCut(host, i);
      assert IsLongest(self, host, told, peers, ServiceHostAt(host, i), UserAt(host, i), found.value);
    }
  }

  /** What the database answers each candidate now. */
  function CurrentAnswers(host: string, database: Database, moments: nat -> Moment): (answers: seq<Answer>)
    ensures |answers| == |Split(host)|
    ensures forall i | 0 <= i < |answers| :: answers[i] == database(UserAt(host, i), moments(i).read)
  {
    seq(|Split(host)|, i requires 0 <= i < |Split(host)| => database(UserAt(host, i), moments(i).read))
  }

  /** What one candidate is told: the cached route while it is good, the database otherwise. */
  function AnswerFor(entries: Entries, user: string, database: Database, moment: Moment): Answer {
    var cached := Lookup(entries, user, moment.get);
    if cached.Some? then Answered(cached.value) else database(user, moment.read)
  }

  /** What each candidate is told, given what the cache holds when it looks: others change the cache in between. */
  function Answers(views: nat -> Entries, host: string, database: Database,
      moments: nat -> Moment): (answers: seq<Answer>)
    ensures |answers| == |Split(host)|
    ensures forall i | 0 <= i < |answers| :: answers[i] == AnswerFor(views(i), UserAt(host, i), database, moments(i))
  {
    seq(|Split(host)|, i requires 0 <= i < |Split(host)| => AnswerFor(views(i), UserAt(host, i), database, moments(i)))
  }

  /** The users a lookup of the host can ask for. */
  function Candidates(host: string): set<string> {
    CandidatesUpTo(host, |Split(host)|)
  }

  function CandidatesUpTo(host: string, n: nat): set<string>
    requires n <= |Split(host)|
  {
    if n == 0 then {}
    else if UserAt(host, n - 1) == "" then CandidatesUpTo(host, n - 1)
    else CandidatesUpTo(host, n - 1) + {UserAt(host, n - 1)}
  }

  lemma {:induction false} CandidateAt(host: string, i: nat, n: nat)
    requires i < n <= |Split(host)| && UserAt(host, i) != ""
    ensures UserAt(host, i) in CandidatesUpTo(host, n)
  {
    if i < n - 1 {
      CandidateAt(host, i, n - 1);
    }
  }

  lemma {:induction false} CandidateIndex(host: string, user: string, n: nat) returns (i: nat)
    requires n <= |Split(host)| && user in CandidatesUpTo(host, n)
    ensures i < n && UserAt(host, i) == user != ""
  {
    if UserAt(host, n - 1) == user && user != "" {
      i := n - 1;
    } else {
      i := CandidateIndex(host, user, n - 1);
    }
  }

  /** The route was the user's node at a moment at most `readToStore` before it was stored. */
  ghost predicate ReadBefore(database: Database, user: string, entry: Entry<string>, readToStore: nat) {
    exists t {:trigger database(user, t)} ::
      && database(user, t) == Answered(entry.value)
      && entry.expiresAt - ROUTE_TIME_TO_LIVE - readToStore <= t <= entry.expiresAt - ROUTE_TIME_TO_LIVE
  }

  /** Every cached route leads to some other node, was read from the database, and was stored by `now`. */
  ghost predicate Sound(entries: Entries, self: string, database: Database, readToStore: nat, now: Time) {
    forall user | user in entries ::
      && entries[user].value != "" && entries[user].value != self
      && ReadBefore(database, user, entries[user], readToStore)
      && entries[user].expiresAt - ROUTE_TIME_TO_LIVE <= now
  }

  /** The answer is the current one, or one the database gave at most 15 seconds and `readToStore` before the lookup. */
  ghost predicate Recent(answer: Answer, database: Database, user: string, moment: Moment, readToStore: nat) {
    || answer == database(user, moment.read)
    || exists t {:trigger database(user, t)} ::
         answer == database(user, t) && moment.get - ROUTE_TIME_TO_LIVE - readToStore <= t <= moment.get
  }

  /** A sound cache only ever gives recent answers. */
  lemma AnswersAreRecent(views: nat -> Entries, self: string, host: string, database: Database, moments: nat -> Moment,
      readToStore: nat, i: nat)
    requires i < |Split(host)| && Sound(views(i), self, database, readToStore, moments(i).get)
    ensures Recent(Answers(views, host, database, moments)[i], database, UserAt(host, i), moments(i), readToStore)
  {
    var user, entries := UserAt(host, i), views(i);
    if Lookup(entries, user, moments(i).get).Some? {
      assert ReadBefore(database, user, entries[user], readToStore);
      var stored := entries[user].expiresAt - ROUTE_TIME_TO_LIVE;
      var t :| database(user, t) == Answered(entries[user].value) && stored - readToStore <= t <= stored;
      assert Answers(views, host, database, moments)[i] == database(user, t);
    }
  }

  /** A candidate reads and stores in order, at most `readToStore` apart. */
  predicate Ordered(moment: Moment, readToStore: nat) {
    moment.get <= moment.read <= moment.store <= moment.read + readToStore
  }

  lemma StoredIsSound(entries: Entries, sweep: Time, maxEntries: nat, self: string, database: Database,
      readToStore: nat, user: string, nodeId: string, moment: Moment)
    requires Sound(entries, self, database, readToStore, moment.store) && Ordered(moment, readToStore) && maxEntries > 0
    requires nodeId != "" && nodeId != self && database(user, moment.read) == Answered(nodeId)
    ensures Sound(Kept(entries, sweep, maxEntries)[user := Entry(nodeId, moment.store + ROUTE_TIME_TO_LIVE)],
                  self, database, readToStore, moment.store)
  {
    KeptIsBounded(entries, sweep, maxEntries);
  }

  lemma DroppedIsSound(entries: Entries, self: string, database: Database, readToStore: nat, now: Time,
      users: set<string>)
    requires Sound(entries, self, database, readToStore, now)
    ensures Sound(entries - users, self, database, readToStore, now)
  {
  }

  /** Where no candidate's route is cached, every candidate is told what the database holds. */
  lemma ForgottenMeansCurrent(views: nat -> Entries, host: string, database: Database, moments: nat -> Moment)
    requires forall i | 0 <= i < |Split(host)| :: Lookup(views(i), UserAt(host, i), moments(i).get).None?
    ensures Answers(views, host, database, moments) == CurrentAnswers(host, database, moments)
  {
  }

  /** What a lookup finds while nobody else touches the cache. */
  function FoundWith(entries: Entries, self: string, host: string, database: Database, moments: nat -> Moment,
      peersAt: nat -> map<string, Peer>): Option<Peer>
  {
    DirectLookup(self, host, 0, Answers(_ => entries, host, database, moments), peersAt)
  }

  /** Each candidate's route can decide the lookup, so none of them may be left in the cache. */
  lemma EveryCandidateMatters(host: string, user: string)
    returns (entries: Entries, self: string, database: Database, moments: nat -> Moment,
      peersAt: nat -> map<string, Peer>)
    requires user in Candidates(host)
    ensures FoundWith(entries, self, host, database, moments, peersAt)
         != FoundWith(entries - {user}, self, host, database, moments, peersAt)
  {
    moments := _ => Moment(0, 0, 0, 0);
    database := (_, _) => Failed;
    peersAt := _ => map["other" := Peer(0, "other")];
    entries, self := map[user := Entry("other", 15)], "self";
    var index := CandidateIndex(host, user, |Split(host)|);
    FirstAnswerDecides(self, host, 0, Answers(_ => entries, host, database, moments), peersAt, index);
    NoAnswerFindsNobody(self, host, 0, Answers(_ => entries - {user}, host, database, moments), peersAt);
  }

  lemma {:induction false} FirstAnswerDecides(self: string, host: string, from: nat, answers: seq<Answer>,
      peersAt: nat -> map<string, Peer>, index: nat)
    requires self != "" && from <= index < |Split(host)| == |answers| && UserAt(host, index) != ""
    requires answers[index].Answered? && answers[index].nodeId != "" && answers[index].nodeId != self
    requires answers[index].nodeId in peersAt(index)
    ensures DirectLookup(self, host, from, answers, peersAt).Some?
    decreases index - from
  {
    if from < index {
      FirstAnswerDecides(self, host, from + 1, answers, peersAt, index);
    }
  }

  lemma {:induction false} NoAnswerFindsNobody(self: string, host: string, from: nat, answers: seq<Answer>,
      peersAt: nat -> map<string, Peer>)
    requires from <= |Split(host)| == |answers|
    requires forall i | 0 <= i < |answers| :: answers[i].Failed?
    ensures DirectLookup(self, host, from, answers, peersAt).None?
    decreases |Split(host)| - from
  {
    if from < |Split(host)| {
      NoAnswerFindsNobody(self, host, from + 1, answers, peersAt);
    }
  }

  lemma MinusOneMore(entries: Entries, users: set<string>, user: string)
    ensures (entries - users) - {user} == entries - (users + {user})
  {
  }

  /** What the n-th candidate finds in the cache was left there by accesses like its own. */
  ghost predicate SharedAt(self: string, views: nat -> Entries, others: nat -> Entries, database: Database,
      moments: nat -> Moment, readToStore: nat, i: nat)
  {
    && Ordered(moments(i), readToStore)
    && |views(i)| <= ROUTE_MAX_ENTRIES && Sound(views(i), self, database, readToStore, moments(i).get)
    && |others(i)| <= ROUTE_MAX_ENTRIES && Sound(others(i), self, database, readToStore, moments(i).store)
  }

  ghost predicate Shared(self: string, views: nat -> Entries, others: nat -> Entries, database: Database,
      moments: nat -> Moment, readToStore: nat)
  {
    forall i :: SharedAt(self, views, others, database, moments, readToStore, i)
  }

  class Router {
    const nodeId: string
    const routes: Cache<string>

    ghost predicate Valid()
      reads this, routes
    {
      routes.Valid() && routes.timeToLive == ROUTE_TIME_TO_LIVE && routes.maxEntries == ROUTE_MAX_ENTRIES
    }

    constructor (nodeId: string)
      ensures Valid() && this.nodeId == nodeId && routes.entries == map[] && fresh(routes)
    {
      this.nodeId := nodeId;
      routes := new Cache(ROUTE_TIME_TO_LIVE, ROUTE_MAX_ENTRIES);
    }

    /** Other lookups and invalidations change the cache; each of them leaves it sound. */
    method Interfere(others: Entries)
      requires Valid() && |others| <= routes.maxEntries
      modifies routes
      ensures Valid() && routes.entries == others
    {
      routes.entries := others;
    }

    /** Remembers a route that was just read. */
    method Remember(user: string, node: string, database: Database, moment: Moment, ghost readToStore: nat)
      requires Valid() && Sound(routes.entries, nodeId, database, readToStore, moment.store)
      requires Ordered(moment, readToStore)
      requires node != "" && node != nodeId && database(user, moment.read) == Answered(node)
      modifies routes
      ensures Valid() && Sound(routes.entries, nodeId, database, readToStore, moment.store)
      ensures Lookup(routes.entries, user, moment.store + ROUTE_TIME_TO_LIVE) == Some(node)
    {
      StoredIsSound(routes.entries, moment.sweep, routes.maxEntries, nodeId, database, readToStore, user, node, moment);
      routes.Put(user, node, moment.sweep, moment.store);
    }

    /**
     One candidate of a lookup. A usable route that was read is remembered, a cached one without a
     peer is dropped, anything else leaves the cache as the others left it; the cache stays sound.
     */
    method Probe(user: string, database: Database, moment: Moment, peers: map<string, Peer>, others: Entries,
        ghost readToStore: nat)
      returns (found: Option<Peer>)
      requires Valid() && Sound(routes.entries, nodeId, database, readToStore, moment.get)
      requires Ordered(moment, readToStore)
      requires |others| <= routes.maxEntries && Sound(others, nodeId, database, readToStore, moment.store)
      modifies routes
      ensures Valid() && Sound(routes.entries, nodeId, database, readToStore, moment.store)
      ensures found == Reached(nodeId, AnswerFor(old(routes.entries), user, database, moment), peers)
      ensures var hit := Lookup(old(routes.entries), user, moment.get);
              && (found.None? ==> routes.entries == if hit.Some? then others - {user} else others)
              && (found.Some? && hit.Some? ==> routes.entries == others)
              && (found.Some? && hit.None? ==>
                    && database(user, moment.read).Answered?
                    && Lookup(routes.entries, user, moment.store + ROUTE_TIME_TO_LIVE)
                        == Some(database(user, moment.read).nodeId))
    {
      var cached := routes.Get(user, moment.get);
      var answer := if cached.Some? then Answered(cached.value) else database(user, moment.read);
      Interfere(others);
      if answer.Failed? || answer.nodeId == "" || answer.nodeId == nodeId {
        return None;
      }
      if answer.nodeId in peers {
        if cached.None? {
          Remember(user, answer.nodeId, database, moment, readToStore);
        }
        return Some(peers[answer.nodeId]);
      }
      if cached.Some? {
        DroppedIsSound(others, nodeId, database, readToStore, moment.store, {user});
        routes.Invalidate(user);
      }
      return None;
    }

    /**
     The result is that of the cache-free lookup on what each candidate is told. The cache each
     candidate looks into, and the one it writes to, are whatever the others have made of it.
     */
    method LookupRemotePeer(host: string, database: Database, moments: nat -> Moment, peersAt: nat -> map<string, Peer>,
        views: nat -> Entries, others: nat -> Entries, ghost readToStore: nat)
      returns (found: Option<Peer>)
      requires Valid() && Shared(nodeId, views, others, database, moments, readToStore)
      modifies routes
      ensures Valid()
      ensures found == DirectLookup(nodeId, host, 0, Answers(views, host, database, moments), peersAt)
      ensures IsBestRoute(nodeId, host, Answers(views, host, database, moments), peersAt, found)
    {
      DirectIsBest(nodeId, host, Answers(views, host, database, moments), peersAt);
      if nodeId == "" {
        return None;
      }
      var parts := Split(host);
      ghost var told := Answers(views, host, database, moments);
      for index := 0 to |parts|
        invariant Valid()
        invariant DirectLookup(nodeId, host, index, told, peersAt) == DirectLookup(nodeId, host, 0, told, peersAt)
      {
        var user := Join(parts[index..]);
        if user == "" {
          continue;
        }
        assert SharedAt(nodeId, views, others, database, moments, readToStore, index);
        Interfere(views(index));
        found := Probe(user, database, moments(index), peersAt(index), others(index), readToStore);
        if found.Some? {
          return;
        }
      }
      return None;
    }

    /** Forgets precisely the routes a lookup of the host can consult. */
    method InvalidateRoutes(host: string)
      requires Valid()
      modifies routes
      ensures Valid() && routes.entries == old(routes.entries) - Candidates(host)
    {
      var parts := Split(host);
      for index := 0 to |parts|
        invariant Valid()
        invariant routes.entries == old(routes.entries) - CandidatesUpTo(host, index)
      {
        var user := Join(parts[index..]);
        if user != "" {
          MinusOneMore(old(routes.entries), CandidatesUpTo(host, index), user);
          routes.Invalidate(user);
        }
      }
    }
  }
}
