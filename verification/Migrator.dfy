/** Running the migrations of a binary against a database. */
module Migrator {
  import opened Common
  import opened Ids
  import opened Migrations

  /** The transaction takes back a migration that was recorded without a reverse script. */
  predicate Irreversible(t: Transaction, records: map<string, string>) {
    t.Revert? && t.id in records && Blank(records[t.id])
  }

  /** Why a run stopped before a transaction: its reverse script is blank, or else it failed. */
  predicate StoppedAt<S>(exec: Executor<S>, db: Database<S>, t: Transaction, outcome: Outcome, fault: bool) {
    match outcome
    case Done => false
    case Error => !Irreversible(t, db.records) && (fault || SchemaAfter(exec, db, t).None?)
    case Panic => Irreversible(t, db.records)
  }

  /** None of the transactions had a reason to stop. */
  predicate Unhindered(plan: seq<Transaction>, records: map<string, string>, faults: nat -> bool) {
    forall k | 0 <= k < |plan| :: !faults(k) && !Irreversible(plan[k], records)
  }

  /** The first n transactions of the plan were committed. */
  predicate Committed<S(==)>(exec: Executor<S>, before: Database<S>, plan: seq<Transaction>, faults: nat -> bool,
      n: nat, after: Database<S>)
  {
    n <= |plan| && AfterAll(exec, before, plan[..n]) == Some(after) && Unhindered(plan[..n], before.records, faults)
  }

  /** That many were committed, and why not more. */
  predicate RanTo<S(==)>(exec: Executor<S>, before: Database<S>, plan: seq<Transaction>, faults: nat -> bool,
      n: nat, outcome: Outcome, after: Database<S>)
  {
    && Committed(exec, before, plan, faults, n, after)
    && (outcome.Done? <==> n == |plan|)
    && (n < |plan| ==> StoppedAt(exec, after, plan[n], outcome, faults(n)))
  }

  /** One more transaction of a plan. */
  lemma OneMore<S>(exec: Executor<S>, db: Database<S>, plan: seq<Transaction>, faults: nat -> bool, n: nat,
      before: Database<S>, after: Database<S>)
    requires Committed(exec, db, plan, faults, n, before) && n < |plan| && After(exec, before, plan[n]) == Some(after)
    requires !faults(n) && !Irreversible(plan[n], db.records)
    ensures Committed(exec, db, plan, faults, n + 1, after)
  {
    AfterAllConcat(exec, db, plan[..n], [plan[n]]);
    assert plan[..n] + [plan[n]] == plan[..n + 1];
    assert AfterAll(exec, before, [plan[n]]) == AfterAll(exec, after, [plan[n]][1..]);
  }

  lemma StoppedEarly<S>(exec: Executor<S>, before: Database<S>, first: seq<Transaction>, second: seq<Transaction>,
      faults: nat -> bool, n: nat, outcome: Outcome, after: Database<S>)
    requires RanTo(exec, before, first, faults, n, outcome, after) && n < |first|
    ensures RanTo(exec, before, first + second, faults, n, outcome, after)
  {
    assert (first + second)[..n] == first[..n];
  }

  /** All of the first transactions and some of the others; advances cannot be irreversible. */
  lemma TwoPhases<S>(exec: Executor<S>, before: Database<S>, first: seq<Transaction>, second: seq<Transaction>,
      faults: nat -> bool, later: nat -> bool, n: nat, outcome: Outcome, middle: Database<S>, after: Database<S>)
    requires RanTo(exec, before, first, faults, |first|, Done, middle)
    requires RanTo(exec, middle, second, later, n, outcome, after)
    requires forall k | 0 <= k < |second| :: second[k].Advance? && later(k) == faults(|first| + k)
    ensures RanTo(exec, before, first + second, faults, |first| + n, outcome, after)
  {
    AfterAllConcat(exec, before, first, second[..n]);
    var plan := (first + second)[..|first| + n];
    assert first[..|first|] == first && plan == first + second[..n];
    forall k | 0 <= k < |plan| ensures !faults(k) && !Irreversible(plan[k], before.records) {
      if k >= |first| {
        assert plan[k] == second[..n][k - |first|] && later(k - |first|) == faults(k);
      }
    }
    if n < |second| {
      assert (first + second)[|first| + n] == second[n] && later(n) == faults(|first| + n);
    }
  }

  lemma PlanFrom(ids: seq<string>, binary: seq<Migration>, records: map<string, string>)
    requires Descending(ids) && Elements(ids) == Unknown(binary, records)
    ensures IsPlan(Reverts(ids) + Advances(Missing(binary, records)), binary, records)
    ensures forall i | 0 <= i < |ids| :: ids[i] in records
  {
    assert forall i | 0 <= i < |ids| :: ids[i] in Elements(ids);
  }

  class Store<S> {
    var schema: S
    var records: map<string, string>

    constructor (schema: S)
      ensures this.schema == schema && records == map[]
    {
      this.schema := schema;
      records := map[];
    }

    function Content(): Database<S>
      reads this
    {
      Database(schema, records)
    }

    /** A transaction either commits both halves or leaves everything as it was. */
    method Transact(t: Transaction, exec: Executor<S>, fault: bool) returns (committed: bool)
      requires t.Revert? ==> t.id in records
      modifies this
      ensures committed <==> !fault && SchemaAfter(exec, old(Content()), t).Some?
      ensures committed ==> After(exec, old(Content()), t) == Some(Content())
      ensures !committed ==> Content() == old(Content())
    {
      var next := SchemaAfter(exec, Content(), t);
      if fault || next.None? {
        return false;
      }
      schema := next.value;
      records := RecordsAfter(records, t);
      return true;
    }

    /** The recorded ids this binary does not know, newest first. */
    method UnknownIds(binary: seq<Migration>) returns (sorted: seq<string>)
      ensures Descending(sorted) && Elements(sorted) == Unknown(binary, records)
    {
      var known: set<string> := {};
      for i := 0 to |binary|
        invariant forall id :: id in known <==> exists k | 0 <= k < i :: binary[k].id == id
      {
        known := known + {binary[i].id};
      }
      var unknown: seq<string> := [];
      var rest := records.Keys;
      while rest != {}
        invariant rest <= records.Keys
        invariant forall id :: id in unknown <==> id in records && id !in rest && id !in known
        invariant forall i, j | 0 <= i < j < |unknown| :: unknown[i] != unknown[j]
      {
        var id :| id in rest;
        rest := rest - {id};
        if id !in known {
          unknown := unknown + [id];
        }
      }
      sorted := SortDescending(unknown);
      assert forall id | id in records :: id in known <==> Has(binary, id);
    }

    method RevertAll(ids: seq<string>, exec: Executor<S>, faults: nat -> bool)
      returns (outcome: Outcome, committed: nat)
      requires Descending(ids) && forall i | 0 <= i < |ids| :: ids[i] in records
      modifies this
      ensures RanTo(exec, old(Content()), Reverts(ids), faults, committed, outcome, Content())
    {
      var existing := records;
      ghost var plan := Reverts(ids);
      for i := 0 to |ids|
        invariant Committed(exec, old(Content()), plan, faults, i, Content())
        invariant forall k | i <= k < |ids| :: ids[k] in records && records[ids[k]] == existing[ids[k]]
      {
        if Blank(existing[ids[i]]) {
          return Panic, i;
        }
        ghost var before := Content();
        var ok := Transact(Revert(ids[i]), exec, faults(i));
        if !ok {
          return Error, i;
        }
        OneMore(exec, old(Content()), plan, faults, i, before, Content());
        forall k | i < k < |ids| ensures ids[k] != ids[i] {
          LessIsStrict(ids[k], ids[i]);
        }
      }
      return Done, |ids|;
    }

    method AdvanceAll(binary: seq<Migration>, existing: map<string, string>, exec: Executor<S>, faults: nat -> bool)
      returns (outcome: Outcome, committed: nat)
      modifies this
      ensures RanTo(exec, old(Content()), Advances(Missing(binary, existing)), faults, committed, outcome, Content())
    {
      committed := 0;
      ghost var missing := Missing(binary, existing);
      ghost var plan := Advances(missing);
      assert binary[0..] == binary;
      for j := 0 to |binary|
        invariant committed <= |missing| && missing[committed..] == Missing(binary[j..], existing)
        invariant Committed(exec, old(Content()), plan, faults, committed, Content())
      {
        assert binary[j..][1..] == binary[j + 1..];
        if binary[j].id in existing {
          continue;
        }
        assert missing[committed..][0] == binary[j];
        assert missing[committed + 1..] == missing[committed..][1..];
        ghost var before := Content();
        var ok := Transact(Advance(binary[j]), exec, faults(committed));
        if !ok {
          return Error, committed;
        }
        OneMore(exec, old(Content()), plan, faults, committed, before, Content());
        committed := committed + 1;
      }
      return Done, committed;
    }

    /**
     A run commits the first transactions of the only plan there is for this binary and these
     records, all of them if and only if it is done; otherwise it stopped at the first one that
     failed, or at a recorded migration without a reverse script. Nothing happens if the records
     cannot be read.
     */
    method Migrate(binary: seq<Migration>, exec: Executor<S>, readable: bool, faults: nat -> bool)
      returns (outcome: Outcome, committed: nat, ghost plan: seq<Transaction>)
      requires WellSorted(binary)
      modifies this
      ensures IsPlan(plan, binary, old(records))
      ensures readable ==> RanTo(exec, old(Content()), plan, faults, committed, outcome, Content())
      ensures !readable ==> outcome.Error? && committed == 0 && Content() == old(Content())
    {
      var existing := records;
      var ids := UnknownIds(binary);
      ghost var reverts, advances := Reverts(ids), Advances(Missing(binary, existing));
      plan := reverts + advances;
      PlanFrom(ids, binary, existing);
      if !readable {
        return Error, 0, plan;
      }
      outcome, committed := RevertAll(ids, exec, faults);
      if !outcome.Done? {
        StoppedEarly(exec, old(Content()), reverts, advances, faults, committed, outcome, Content());
        return;
      }
      ghost var middle := Content();
      var later := (k: nat) => faults(|ids| + k);
      var advanced;
      outcome, advanced := AdvanceAll(binary, existing, exec, later);
      committed := |ids| + advanced;
      TwoPhases(exec, old(Content()), reverts, advances, faults, later, advanced, outcome, middle, Content());
    }
  }
}
