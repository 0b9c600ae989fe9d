/**
 The order condition of the stack invariant is exact. Take a schema that remembers the order in
 which migrations were applied and whose reverse scripts only undo the last of them: there a run
 ends with the recorded migrations applied in ascending order if and only if everything that
 differs sorts after everything shared.
 */
module MigrationOrder {
  import opened Common
  import opened Ids
  import opened Migrations

  type Log = seq<string>

  function Execute(script: string, log: Log): Option<Log> {
    if script == "" then None
    else if script[0] == '+' then Some(log + [script[1..]])
    else if script[0] == '-' && log != [] && log[|log| - 1] == script[1..] then Some(log[..|log| - 1])
    else None
  }

  function Logging(id: string): Migration {
    Migration(id, "+" + id, "-" + id)
  }

  ghost predicate AllLogging(binary: seq<Migration>) {
    forall i | 0 <= i < |binary| :: binary[i] == Logging(binary[i].id)
  }

  predicate LogRecords(records: map<string, string>) {
    forall id | id in records :: records[id] == "-" + id
  }

  lemma LoggingIsInvertible(binary: seq<Migration>)
    requires AllLogging(binary)
    ensures AllInvertible(Execute, binary)
  {
    forall i | 0 <= i < |binary| ensures Invertible(Execute, binary[i]) {
      var id := binary[i].id;
      assert ("-" + id)[0] == '-' && ("-" + id)[1..] == id && ("+" + id)[1..] == id;
      assert !IsSpace(binary[i].reverse[0]);
    }
  }

  function IdsOf(ms: seq<Migration>): Log {
    seq(|ms|, i requires 0 <= i < |ms| => ms[i].id)
  }

  /** Whatever its script, a migration that the reverse script undoes has appended its id. */
  lemma Appends(m: Migration, log: Log)
    requires Invertible(Execute, m) && m.reverse == "-" + m.id && Up(Execute, m, log).Some?
    ensures Up(Execute, m, log).value == log + [m.id]
  {
    assert Execute(m.reverse, Up(Execute, m, log).value) == Some(log);
    assert m.reverse[1..] == m.id;
  }

  lemma BelowHasLogRecords(stack: seq<Migration>)
    requires WellSorted(stack) && stack != [] && LogRecords(RecordsOf(stack))
    ensures LogRecords(RecordsOf(stack[..|stack| - 1])) && stack[|stack| - 1].reverse == "-" + stack[|stack| - 1].id
  {
    var below, top := stack[..|stack| - 1], stack[|stack| - 1];
    assert RecordsOf(stack) == RecordsOf(below)[top.id := top.reverse];
    assert RecordsOf(stack)[top.id] == top.reverse;
    forall id | id in RecordsOf(below) ensures RecordsOf(below)[id] == "-" + id {
      StackIds(below, id);
      var i :| 0 <= i < |below| && below[i].id == id;
      LessIsStrict(stack[i].id, top.id);
      assert RecordsOf(stack)[id] == RecordsOf(below)[id];
    }
  }

  ghost predicate Undoable(stack: seq<Migration>) {
    WellSorted(stack) && LogRecords(RecordsOf(stack)) && forall i | 0 <= i < |stack| :: Invertible(Execute, stack[i])
  }

  lemma TopIsAppended(stack: seq<Migration>)
    requires Undoable(stack) && stack != [] && Build(Execute, [], stack).Some?
    ensures var below := stack[..|stack| - 1];
            && Undoable(below) && Build(Execute, [], below).Some?
            && Build(Execute, [], stack).value == Build(Execute, [], below).value + [stack[|stack| - 1].id]
  {
    BelowHasLogRecords(stack);
    Appends(stack[|stack| - 1], Build(Execute, [], stack[..|stack| - 1]).value);
  }

  lemma {:induction false} StackIsLog(stack: seq<Migration>)
    requires Undoable(stack) && Build(Execute, [], stack).Some?
    ensures Build(Execute, [], stack).value == IdsOf(stack)
  {
    if stack != [] {
      TopIsAppended(stack);
      StackIsLog(stack[..|stack| - 1]);
      assert IdsOf(stack) == IdsOf(stack[..|stack| - 1]) + [stack[|stack| - 1].id];
    }
  }

  /** The log lists the recorded ids in ascending order. */
  ghost predicate InOrder(db: Database<Log>) {
    && (forall i, j | 0 <= i < j < |db.schema| :: Less(db.schema[i], db.schema[j]))
    && (forall id :: id in db.records <==> id in db.schema)
  }

  lemma RepresentedIsInOrder(db: Database<Log>, stack: seq<Migration>)
    requires Represents(Execute, [], db, stack) && LogRecords(db.records)
    ensures InOrder(db)
  {
    StackIsLog(stack);
    forall id ensures id in db.records <==> id in db.schema {
      StackIds(stack, id);
      if Has(stack, id) {
        var i :| 0 <= i < |stack| && stack[i].id == id;
        assert IdsOf(stack)[i] == id;
      }
      if id in IdsOf(stack) {
        var i :| 0 <= i < |stack| && IdsOf(stack)[i] == id;
        assert stack[i].id == id;
      }
    }
  }

  /** Reverting ids one by one succeeds only if they are the last of the log, newest first. */
  lemma {:induction false} RevertsAreTheEnd(db: Database<Log>, ids: seq<string>)
    requires LogRecords(db.records) && AfterAll(Execute, db, Reverts(ids)).Some?
    ensures var after := AfterAll(Execute, db, Reverts(ids)).value;
            && |ids| <= |db.schema| && after.schema == db.schema[..|db.schema| - |ids|] && LogRecords(after.records)
    ensures forall i | 0 <= i < |ids| :: db.schema[|db.schema| - 1 - i] == ids[i]
    decreases |ids|
  {
    if ids != [] {
      var next := After(Execute, db, Revert(ids[0])).value;
      assert Reverts(ids)[1..] == Reverts(ids[1..]);
      assert ("-" + ids[0])[1..] == ids[0];
      RevertsAreTheEnd(next, ids[1..]);
      forall i | 0 < i < |ids| ensures db.schema[|db.schema| - 1 - i] == ids[i] {
        assert next.schema[|next.schema| - 1 - (i - 1)] == ids[1..][i - 1];
      }
    }
  }

  lemma {:induction false} AdvancesAreAppended(db: Database<Log>, ms: seq<Migration>)
    requires LogRecords(db.records) && AllLogging(ms)
    ensures AfterAll(Execute, db, Advances(ms)).Some?
    ensures var after := AfterAll(Execute, db, Advances(ms)).value;
            after.schema == db.schema + IdsOf(ms) && LogRecords(after.records)
    decreases |ms|
  {
    if ms == [] {
      assert db.schema + IdsOf(ms) == db.schema;
    } else {
      assert Advances(ms)[1..] == Advances(ms[1..]);
      assert ("+" + ms[0].id)[1..] == ms[0].id;
      var next := After(Execute, db, Advance(ms[0])).value;
      assert AllLogging(ms[1..]);
      AdvancesAreAppended(next, ms[1..]);
      assert IdsOf(ms) == [ms[0].id] + IdsOf(ms[1..]);
    }
  }

  lemma {:induction false} MissingAreLogging(binary: seq<Migration>, records: map<string, string>)
    requires AllLogging(binary)
    ensures AllLogging(Missing(binary, records))
  {
    if binary != [] {
      assert AllLogging(binary[1..]);
      MissingAreLogging(binary[1..], records);
    }
  }

  /** A run that succeeds moves the log as a stack: its end is what was unknown, and what was missing is its new end. */
  lemma RunOfTheLog(db: Database<Log>, binary: seq<Migration>, ids: seq<string>)
    requires LogRecords(db.records) && AllLogging(binary)
    requires AfterAll(Execute, db, Reverts(ids) + Advances(Missing(binary, db.records))).Some?
    ensures |ids| <= |db.schema| && forall i | 0 <= i < |ids| :: db.schema[|db.schema| - 1 - i] == ids[i]
    ensures var after := AfterAll(Execute, db, Reverts(ids) + Advances(Missing(binary, db.records))).value;
            after.schema == db.schema[..|db.schema| - |ids|] + IdsOf(Missing(binary, db.records))
                && LogRecords(after.records)
  {
    var missing := Missing(binary, db.records);
    AfterAllConcat(Execute, db, Reverts(ids), Advances(missing));
    RevertsAreTheEnd(db, ids);
    MissingAreLogging(binary, db.records);
    AdvancesAreAppended(AfterAll(Execute, db, Reverts(ids)).value, missing);
  }

  lemma AtTheEnd(log: Log, ids: seq<string>, p: nat)
    requires p < |log| && |ids| <= |log| && forall i | 0 <= i < |ids| :: log[|log| - 1 - i] == ids[i]
    ensures p >= |log| - |ids| ==> log[p] in Elements(ids)
  {
    if p >= |log| - |ids| {
      var i := |log| - 1 - p;
      assert log[|log| - 1 - i] == ids[i];
    }
  }

  /** If the log is in order before and after, everything that differs sorts after everything shared. */
  lemma OrderImpliesSharedFirst(db: Database<Log>, after: Database<Log>, binary: seq<Migration>, ids: seq<string>)
    requires InOrder(db) && InOrder(after) && Descending(ids) && Elements(ids) == Unknown(binary, db.records)
    requires |ids| <= |db.schema| && forall i | 0 <= i < |ids| :: db.schema[|db.schema| - 1 - i] == ids[i]
    requires after.schema == db.schema[..|db.schema| - |ids|] + IdsOf(Missing(binary, db.records))
    ensures SharedFirst(binary, db.records)
  {
    var kept := |db.schema| - |ids|;
    forall a, b | IsShared(binary, db.records, a) && Differs(binary, db.records, b) ensures Less(a, b) {
      assert a in db.schema;
      var p :| 0 <= p < |db.schema| && db.schema[p] == a;
      assert a !in Elements(ids);
      AtTheEnd(db.schema, ids, p);
      assert p < kept && after.schema[p] == a;
      if b in db.records {
        assert b in Elements(ids);
        var i :| 0 <= i < |ids| && ids[i] == b;
        assert db.schema[|db.schema| - 1 - i] == b;
      } else {
        var k := MissingHas(binary, db.records, b);
        assert after.schema[kept + k] == IdsOf(Missing(binary, db.records))[k] == b;
      }
    }
  }

  lemma {:induction false} MissingHas(binary: seq<Migration>, records: map<string, string>, id: string) returns (k: nat)
    requires Has(binary, id) && id !in records
    ensures k < |Missing(binary, records)| && Missing(binary, records)[k].id == id
  {
    var i :| 0 <= i < |binary| && binary[i].id == id;
    if binary[0].id == id {
      k := 0;
    } else {
      assert binary[1..][i - 1].id == id;
      k := MissingHas(binary[1..], records, id);
      if binary[0].id !in records {
        k := k + 1;
      }
    }
  }

  lemma FirstSucceeds(db: Database<Log>, binary: seq<Migration>, plan: seq<Transaction>)
    requires AllLogging(binary) && IsPlan(plan, binary, db.records) && plan != [] && plan[0].Advance?
    ensures After(Execute, db, plan[0]).Some?
  {
    MissingAreLogging(binary, db.records);
    var m := Missing(binary, db.records)[0];
    assert plan[0] == Advance(m);
    assert m.sql[0] == '+';
  }

  lemma StepSucceeds(db: Database<Log>, stack: seq<Migration>, binary: seq<Migration>, plan: seq<Transaction>)
    returns (after: Database<Log>, next: seq<Migration>)
    requires Represents(Execute, [], db, stack) && AllLogging(binary) && WellSorted(binary)
    requires IsPlan(plan, binary, db.records) && SharedFirst(binary, db.records) && plan != []
    ensures After(Execute, db, plan[0]) == Some(after) && Represents(Execute, [], after, next)
    ensures IsPlan(plan[1..], binary, after.records) && SharedFirst(binary, after.records)
  {
    LoggingIsInvertible(binary);
    next := StepKeepsStack(Execute, [], db, stack, binary, plan);
    if plan[0].Advance? {
      FirstSucceeds(db, binary, plan);
    }
    RestIsPlan(plan, binary, db.records);
    after := After(Execute, db, plan[0]).value;
  }

  lemma {:induction false} SharedFirstSucceeds(db: Database<Log>, stack: seq<Migration>, binary: seq<Migration>,
      plan: seq<Transaction>)
    requires Represents(Execute, [], db, stack) && AllLogging(binary) && WellSorted(binary)
    requires IsPlan(plan, binary, db.records) && SharedFirst(binary, db.records)
    ensures AfterAll(Execute, db, plan).Some?
    decreases |plan|
  {
    if plan != [] {
      var after, next := StepSucceeds(db, stack, binary, plan);
      SharedFirstSucceeds(after, next, binary, plan[1..]);
    }
  }

  /** Exactly when a run of a binary finishes with the recorded migrations applied in ascending order. */
  lemma OrderIsExact(db: Database<Log>, stack: seq<Migration>, binary: seq<Migration>, plan: seq<Transaction>)
    requires Represents(Execute, [], db, stack) && LogRecords(db.records)
    requires AllLogging(binary) && WellSorted(binary) && IsPlan(plan, binary, db.records)
    ensures AfterAll(Execute, db, plan).Some?
              && (exists last :: Represents(Execute, [], AfterAll(Execute, db, plan).value, last))
       <==> SharedFirst(binary, db.records)
  {
    if SharedFirst(binary, db.records) {
      SharedFirstSucceeds(db, stack, binary, plan);
      LoggingIsInvertible(binary);
      assert plan[..|plan|] == plan;
      var last := RunKeepsStack(Execute, [], db, stack, binary, plan, |plan|);
    } else if AfterAll(Execute, db, plan).Some? {
      var after := AfterAll(Execute, db, plan).value;
      var ids :| Descending(ids) && Elements(ids) == Unknown(binary, db.records)
          && plan == Reverts(ids) + Advances(Missing(binary, db.records));
      RunOfTheLog(db, binary, ids);
      RepresentedIsInOrder(db, stack);
      forall last | Represents(Execute, [], after, last) ensures false {
        RepresentedIsInOrder(after, last);
        OrderImpliesSharedFirst(db, after, binary, ids);
      }
    }
  }
}
