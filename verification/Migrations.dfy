/**
 Schema migration: what the database records beyond this binary is reverted newest first,
 then what this binary adds is applied oldest first, one transaction each. The remaining
 work of an interrupted run is exactly the work a new run plans, and as long as everything
 that differs sorts after what is shared, the schema is always the recorded migrations
 applied in ascending order.
 */
module Migrations {
  import opened Common
  import opened Ids

  datatype Migration = Migration(id: string, sql: string, reverse: string)

  /** The schema and the migration table: the recorded ids with their reverse scripts. */
  datatype Database<S> = Database(schema: S, records: map<string, string>)

  /** Runs a script on a schema; None is a failed script, which leaves the schema as it was. */
  type Executor<!S> = (string, S) -> Option<S>

  datatype Transaction = Revert(id: string) | Advance(migration: Migration)

  datatype Outcome = Done | Error | Panic

  /** What loading guarantees of a binary's migrations. */
  predicate WellSorted(binary: seq<Migration>) {
    forall i, j | 0 <= i < j < |binary| :: Less(binary[i].id, binary[j].id)
  }

  predicate Has(binary: seq<Migration>, id: string) {
    exists i | 0 <= i < |binary| :: binary[i].id == id
  }

  /** The recorded ids this binary does not know. */
  function Unknown(binary: seq<Migration>, records: map<string, string>): set<string> {
    set id | id in records && !Has(binary, id)
  }

  /** The migrations of this binary that are not recorded yet, in the binary's order. */
  function Missing(binary: seq<Migration>, records: map<string, string>): seq<Migration> {
    if binary == [] then []
    else if binary[0].id in records then Missing(binary[1..], records)
    else [binary[0]] + Missing(binary[1..], records)
  }

  /** White space as Unicode defines it. */
  predicate IsSpace(c: char) {
    || '\t' <= c <= '\r' || c == ' ' || c == '\U{85}' || c == '\U{A0}' || c == '\U{1680}'
    || '\U{2000}' <= c <= '\U{200A}' || '\U{2028}' <= c <= '\U{2029}'
    || c == '\U{202F}' || c == '\U{205F}' || c == '\U{3000}'
  }

  predicate Blank(script: string) {
    forall i | 0 <= i < |script| :: IsSpace(script[i])
  }

  function RecordsAfter(records: map<string, string>, t: Transaction): map<string, string> {
    match t
    case Revert(id) => records - {id}
    case Advance(m) => records[m.id := m.reverse]
  }

  /** The forward script; an empty one is not sent. */
  function Up<S>(exec: Executor<S>, m: Migration, schema: S): Option<S> {
    if m.sql == "" then Some(schema) else exec(m.sql, schema)
  }

  function SchemaAfter<S>(exec: Executor<S>, db: Database<S>, t: Transaction): Option<S> {
    match t
    case Revert(id) => if id in db.records then exec(db.records[id], db.schema) else None
    case Advance(m) => Up(exec, m, db.schema)
  }

  /** The database after one transaction, None if it is rolled back. */
  function After<S>(exec: Executor<S>, db: Database<S>, t: Transaction): Option<Database<S>> {
    var schema := SchemaAfter(exec, db, t);
    if schema.None? then None else Some(Database(schema.value, RecordsAfter(db.records, t)))
  }

  function AfterAll<S>(exec: Executor<S>, db: Database<S>, plan: seq<Transaction>): Option<Database<S>>
    decreases |plan|
  {
    if plan == [] then Some(db)
    else
      var next := After(exec, db, plan[0]);
      if next.None? then None else AfterAll(exec, next.value, plan[1..])
  }

  function RecordsAfterAll(records: map<string, string>, plan: seq<Transaction>): map<string, string>
    decreases |plan|
  {
    if plan == [] then records else RecordsAfterAll(RecordsAfter(records, plan[0]), plan[1..])
  }

  function Reverts(ids: seq<string>): seq<Transaction> {
    seq(|ids|, i requires 0 <= i < |ids| => Revert(ids[i]))
  }

  function Advances(ms: seq<Migration>): seq<Transaction> {
    seq(|ms|, i requires 0 <= i < |ms| => Advance(ms[i]))
  }

  /** The transactions of one run: reverts in descending order, then advances. */
  ghost predicate IsPlan(plan: seq<Transaction>, binary: seq<Migration>, records: map<string, string>) {
    exists ids ::
      && Descending(ids) && Elements(ids) == Unknown(binary, records)
      && plan == Reverts(ids) + Advances(Missing(binary, records))
  }

  /** There is only one plan. */
  lemma PlanIsUnique(a: seq<Transaction>, b: seq<Transaction>, binary: seq<Migration>, records: map<string, string>)
    requires IsPlan(a, binary, records) && IsPlan(b, binary, records)
    ensures a == b
  {
    var ids :| Descending(ids) && Elements(ids) == Unknown(binary, records)
        && a == Reverts(ids) + Advances(Missing(binary, records));
    var ids' :| Descending(ids') && Elements(ids') == Unknown(binary, records)
        && b == Reverts(ids') + Advances(Missing(binary, records));
    DescendingIsUnique(ids, ids');
  }

  lemma RevertLeavesTheRest(binary: seq<Migration>, records: map<string, string>, ids: seq<string>)
    requires ids != [] && Descending(ids) && Elements(ids) == Unknown(binary, records)
    ensures Descending(ids[1..]) && Elements(ids[1..]) == Unknown(binary, records - {ids[0]})
    ensures Missing(binary, records - {ids[0]}) == Missing(binary, records)
  {
    TailElements(ids);
    assert ids[0] in Elements(ids);
    UnrelatedToMissing(binary, records, ids[0]);
  }

  lemma {:induction false} UnrelatedToMissing(binary: seq<Migration>, records: map<string, string>, id: string)
    requires !Has(binary, id)
    ensures Missing(binary, records - {id}) == Missing(binary, records)
  {
    if binary != [] {
      assert binary[0].id != id;
      forall i | 0 <= i < |binary[1..]| ensures binary[1..][i].id != id {
        assert binary[1..][i] == binary[i + 1];
      }
      UnrelatedToMissing(binary[1..], records, id);
    }
  }

  lemma AdvanceLeavesTheRest(binary: seq<Migration>, records: map<string, string>)
    requires WellSorted(binary) && Unknown(binary, records) == {} && Missing(binary, records) != []
    ensures var m := Missing(binary, records)[0];
            && Unknown(binary, records[m.id := m.reverse]) == {}
            && Missing(binary, records[m.id := m.reverse]) == Missing(binary, records)[1..]
  {
    var m := Missing(binary, records)[0];
    MissingTail(binary, records);
    MissingIsOwn(binary, records, 0);
    assert forall id | id in records[m.id := m.reverse] :: Has(binary, id) by {
      forall id | id in records[m.id := m.reverse] ensures Has(binary, id) {
        if id != m.id { assert id in records && id !in Unknown(binary, records); }
      }
    }
  }

  lemma {:induction false} MissingIsOwn(binary: seq<Migration>, records: map<string, string>, k: nat)
    requires k < |Missing(binary, records)|
    ensures Missing(binary, records)[k] in binary && Has(binary, Missing(binary, records)[k].id)
    ensures Missing(binary, records)[k].id !in records
  {
    var m := Missing(binary, records)[k];
    if binary[0].id in records {
      MissingIsOwn(binary[1..], records, k);
    } else if k > 0 {
      MissingIsOwn(binary[1..], records, k - 1);
    }
    var i :| 0 <= i < |binary| && binary[i] == m;
    assert binary[i].id == m.id;
  }

  lemma {:induction false} MissingTail(binary: seq<Migration>, records: map<string, string>)
    requires WellSorted(binary) && Missing(binary, records) != []
    ensures var m := Missing(binary, records)[0];
            Missing(binary, records[m.id := m.reverse]) == Missing(binary, records)[1..]
  {
    var m := Missing(binary, records)[0];
    if binary[0].id in records {
      MissingTail(binary[1..], records);
    } else {
      forall i | 0 <= i < |binary[1..]| ensures binary[1..][i].id != m.id {
        LessIsStrict(binary[0].id, binary[i + 1].id);
      }
      OthersStayMissing(binary[1..], records, m);
    }
  }

  lemma {:induction false} OthersStayMissing(binary: seq<Migration>, records: map<string, string>, m: Migration)
    requires forall i | 0 <= i < |binary| :: binary[i].id != m.id
    ensures Missing(binary, records[m.id := m.reverse]) == Missing(binary, records)
  {
    if binary != [] {
      forall i | 0 <= i < |binary[1..]| ensures binary[1..][i].id != m.id {
        assert binary[1..][i] == binary[i + 1];
      }
      OthersStayMissing(binary[1..], records, m);
    }
  }

  /** After the first transaction of a plan, the rest is the plan of a new run. */
  lemma RestIsPlan(plan: seq<Transaction>, binary: seq<Migration>, records: map<string, string>)
    requires WellSorted(binary) && IsPlan(plan, binary, records) && plan != []
    ensures IsPlan(plan[1..], binary, RecordsAfter(records, plan[0]))
  {
    var ids :| Descending(ids) && Elements(ids) == Unknown(binary, records)
        && plan == Reverts(ids) + Advances(Missing(binary, records));
    if ids != [] {
      RevertLeavesTheRest(binary, records, ids);
      assert plan[1..] == Reverts(ids[1..]) + Advances(Missing(binary, records));
    } else {
      assert Elements(ids) == {};
      AdvanceLeavesTheRest(binary, records);
      assert plan[1..] == Reverts([]) + Advances(Missing(binary, records)[1..]);
      assert Descending([]) && Elements([]) == {};
    }
  }

  lemma {:induction false} SuffixIsPlan(plan: seq<Transaction>, binary: seq<Migration>, records: map<string,
      string>, k: nat)
    requires WellSorted(binary) && IsPlan(plan, binary, records) && k <= |plan|
    ensures IsPlan(plan[k..], binary, RecordsAfterAll(records, plan[..k]))
    decreases k
  {
    if k == 0 {
      assert plan[0..] == plan;
    } else {
      RestIsPlan(plan, binary, records);
      SuffixIsPlan(plan[1..], binary, RecordsAfter(records, plan[0]), k - 1);
      assert plan[..k][1..] == plan[1..][..k - 1] && plan[k..] == plan[1..][k - 1..];
    }
  }

  lemma {:induction false} AfterAllRecords<S>(exec: Executor<S>, db: Database<S>, plan: seq<Transaction>)
    ensures AfterAll(exec, db, plan).Some? ==>
              AfterAll(exec, db, plan).value.records == RecordsAfterAll(db.records, plan)
    decreases |plan|
  {
    if plan != [] && After(exec, db, plan[0]).Some? {
      AfterAllRecords(exec, After(exec, db, plan[0]).value, plan[1..]);
    }
  }

  lemma {:induction false} AfterAllConcat<S>(exec: Executor<S>, db: Database<S>, a: seq<Transaction>,
      b: seq<Transaction>)
    ensures AfterAll(exec, db, a + b) ==
              if AfterAll(exec, db, a).None? then None else AfterAll(exec, AfterAll(exec, db, a).value, b)
    decreases |a|
  {
    if a == [] {
      assert a + b == b;
    } else {
      assert (a + b)[1..] == a[1..] + b;
      if After(exec, db, a[0]).Some? {
        AfterAllConcat(exec, After(exec, db, a[0]).value, a[1..], b);
      }
    }
  }

  /** Nothing left to do means the database records exactly this binary's migrations. */
  lemma NothingLeft(binary: seq<Migration>, records: map<string, string>)
    requires IsPlan([], binary, records)
    ensures forall id :: id in records <==> Has(binary, id)
  {
    var ids :| Descending(ids) && Elements(ids) == Unknown(binary, records)
        && [] == Reverts(ids) + Advances(Missing(binary, records));
    assert |Reverts(ids) + Advances(Missing(binary, records))| == |ids| + |Missing(binary, records)|;
    assert Elements(ids) == {};
    forall id ensures id in records <==> Has(binary, id) {
      if id in records {
        assert id !in Unknown(binary, records);
      } else if Has(binary, id) {
        NoneMissing(binary, records, id);
        assert false;
      }
    }
  }

  lemma {:induction false} NoneMissing(binary: seq<Migration>, records: map<string, string>, id: string)
    requires Missing(binary, records) == [] && Has(binary, id)
    ensures id in records
  {
    if binary[0].id != id {
      var i :| 0 <= i < |binary| && binary[i].id == id;
      assert binary[1..][i - 1].id == id;
      NoneMissing(binary[1..], records, id);
    }
  }

  /**
   Stopping after any transaction and running again reaches the same schema and records as an
   uninterrupted run: the new run plans exactly the transactions that were left. A finished
   run leaves exactly this binary's ids, and a further run has nothing to do.
   */
  lemma Restart<S>(exec: Executor<S>, db: Database<S>, binary: seq<Migration>, plan: seq<Transaction>, k: nat,
      stopped: Database<S>, again: seq<Transaction>)
    requires WellSorted(binary) && IsPlan(plan, binary, db.records) && k <= |plan|
    requires AfterAll(exec, db, plan[..k]) == Some(stopped) && IsPlan(again, binary, stopped.records)
    ensures again == plan[k..] && AfterAll(exec, stopped, again) == AfterAll(exec, db, plan)
    ensures k == |plan| ==> again == [] && forall id :: id in stopped.records <==> Has(binary, id)
  {
    SuffixIsPlan(plan, binary, db.records, k);
    AfterAllRecords(exec, db, plan[..k]);
    PlanIsUnique(again, plan[k..], binary, stopped.records);
    AfterAllConcat(exec, db, plan[..k], plan[k..]);
    assert plan[..k] + plan[k..] == plan;
    if k == |plan| {
      NothingLeft(binary, stopped.records);
    }
  }

  /** The reverse script is there and undoes the forward script wherever that succeeds. */
  ghost predicate Invertible<S(!new)>(exec: Executor<S>, m: Migration) {
    && !Blank(m.reverse)
    && forall schema :: Up(exec, m, schema).Some? ==> exec(m.reverse, Up(exec, m, schema).value) == Some(schema)
  }

  /** The schema that a stack of migrations builds, bottom first. */
  function Build<S>(exec: Executor<S>, base: S, stack: seq<Migration>): Option<S> {
    if stack == [] then Some(base)
    else
      var below := Build(exec, base, stack[..|stack| - 1]);
      if below.None? then None else Up(exec, stack[|stack| - 1], below.value)
  }

  function RecordsOf(stack: seq<Migration>): map<string, string> {
    if stack == [] then map[]
    else RecordsOf(stack[..|stack| - 1])[stack[|stack| - 1].id := stack[|stack| - 1].reverse]
  }

  /** The database is the ascending stack of its recorded migrations, applied to the base schema. */
  ghost predicate Represents<S(!new)>(exec: Executor<S>, base: S, db: Database<S>, stack: seq<Migration>) {
    && WellSorted(stack)
    && (forall i | 0 <= i < |stack| :: Invertible(exec, stack[i]))
    && db.records == RecordsOf(stack)
    && Build(exec, base, stack) == Some(db.schema)
  }

  lemma {:induction false} StackIds(stack: seq<Migration>, id: string)
    ensures id in RecordsOf(stack) <==> Has(stack, id)
  {
    if stack != [] {
      var below := stack[..|stack| - 1];
      StackIds(below, id);
      if Has(below, id) {
        var i :| 0 <= i < |below| && below[i].id == id;
        assert stack[i].id == id;
      }
      if Has(stack, id) {
        var i :| 0 <= i < |stack| && stack[i].id == id;
        if i < |below| { assert below[i].id == id; }
      }
      assert stack[|stack| - 1].id == id ==> Has(stack, id);
    }
  }

  lemma PopStack<S(!new)>(exec: Executor<S>, base: S, db: Database<S>, stack: seq<Migration>)
    requires Represents(exec, base, db, stack) && stack != []
    ensures var top := stack[|stack| - 1];
            var next := After(exec, db, Revert(top.id));
            && top.id in db.records && !Blank(db.records[top.id])
            && next.Some? && Represents(exec, base, next.value, stack[..|stack| - 1])
  {
    var below, top := stack[..|stack| - 1], stack[|stack| - 1];
    assert Invertible(exec, top);
    assert Build(exec, base, below).Some?;
    assert exec(top.reverse, db.schema) == Build(exec, base, below);
    StackIds(below, top.id);
    forall i | 0 <= i < |below| ensures below[i].id != top.id {
      LessIsStrict(stack[i].id, top.id);
    }
    assert db.records - {top.id} == RecordsOf(below);
  }

  lemma PushStack<S(!new)>(exec: Executor<S>, base: S, db: Database<S>, stack: seq<Migration>, m: Migration)
    requires Represents(exec, base, db, stack) && Invertible(exec, m)
    requires forall i | 0 <= i < |stack| :: Less(stack[i].id, m.id)
    requires After(exec, db, Advance(m)).Some?
    ensures Represents(exec, base, After(exec, db, Advance(m)).value, stack + [m])
  {
    assert (stack + [m])[..|stack|] == stack;
  }

  predicate IsShared(binary: seq<Migration>, records: map<string, string>, id: string) {
    id in records && Has(binary, id)
  }

  /** Known to the binary or recorded, but not both. */
  predicate Differs(binary: seq<Migration>, records: map<string, string>, id: string) {
    (id in records) != Has(binary, id)
  }

  /** Everything that differs sorts after everything shared. */
  ghost predicate SharedFirst(binary: seq<Migration>, records: map<string, string>) {
    forall a, b | IsShared(binary, records, a) && Differs(binary, records, b) :: Less(a, b)
  }

  /** The largest unknown id is on top of the stack. */
  lemma TopIsReverted<S(!new)>(exec: Executor<S>, base: S, db: Database<S>, stack: seq<Migration>,
      binary: seq<Migration>, ids: seq<string>)
    requires Represents(exec, base, db, stack) && SharedFirst(binary, db.records)
    requires ids != [] && Descending(ids) && Elements(ids) == Unknown(binary, db.records)
    ensures stack != [] && stack[|stack| - 1].id == ids[0]
  {
    assert ids[0] in Elements(ids);
    StackIds(stack, ids[0]);
    var i :| 0 <= i < |stack| && stack[i].id == ids[0];
    var top := stack[|stack| - 1];
    assert Has(stack, top.id);
    StackIds(stack, top.id);
    assert Has(binary, top.id) ==> IsShared(binary, db.records, top.id) && Differs(binary, db.records, ids[0]);
    assert !Has(binary, top.id) ==> top.id in Elements(ids);
    if top.id != ids[0] {
      LessIsStrict(ids[0], top.id);
    }
  }

  lemma RevertKeepsSharedFirst(binary: seq<Migration>, records: map<string, string>, id: string)
    requires SharedFirst(binary, records) && id in Unknown(binary, records)
    ensures SharedFirst(binary, records - {id})
  {
    forall a, b | IsShared(binary, records - {id}, a) && Differs(binary, records - {id}, b) ensures Less(a, b) {
      assert IsShared(binary, records, a) && Differs(binary, records, b);
    }
  }

  /**
   With nothing unknown, the first missing migration sorts after every recorded one and before
   every other missing one.
   */
  lemma FirstMissingIsNext(binary: seq<Migration>, records: map<string, string>, id: string)
    requires WellSorted(binary) && Missing(binary, records) != [] && Has(binary, id) && id !in records
    ensures id == Missing(binary, records)[0].id || Less(Missing(binary, records)[0].id, id)
  {
    var i :| 0 <= i < |binary| && binary[i].id == id;
    FirstMissingIsFirst(binary, records, i);
  }

  lemma {:induction false} FirstMissingIsFirst(binary: seq<Migration>, records: map<string, string>, i: nat)
    requires WellSorted(binary) && i < |binary| && binary[i].id !in records
    ensures Missing(binary, records) != []
    ensures binary[i].id == Missing(binary, records)[0].id || Less(Missing(binary, records)[0].id, binary[i].id)
  {
    if binary[0].id in records {
      FirstMissingIsFirst(binary[1..], records, i - 1);
    }
  }

  lemma AdvanceKeepsSharedFirst(binary: seq<Migration>, records: map<string, string>)
    requires WellSorted(binary) && SharedFirst(binary, records) && Unknown(binary, records) == {}
    requires Missing(binary, records) != []
    ensures var m := Missing(binary, records)[0]; SharedFirst(binary, records[m.id := m.reverse])
    ensures forall id | id in records :: Less(id, Missing(binary, records)[0].id)
  {
    var m := Missing(binary, records)[0];
    var records' := records[m.id := m.reverse];
    MissingIsOwn(binary, records, 0);
    forall id | id in records ensures Less(id, m.id) {
      assert id !in Unknown(binary, records);
      assert IsShared(binary, records, id) && Differs(binary, records, m.id);
    }
    forall a, b | IsShared(binary, records', a) && Differs(binary, records', b) ensures Less(a, b) {
      assert b !in Unknown(binary, records);
      assert Differs(binary, records, b) && Has(binary, b);
      FirstMissingIsNext(binary, records, b);
      if a != m.id {
        assert IsShared(binary, records, a);
      }
    }
  }

  ghost predicate AllInvertible<S(!new)>(exec: Executor<S>, binary: seq<Migration>) {
    forall i | 0 <= i < |binary| :: Invertible(exec, binary[i])
  }

  /** Every transaction of a plan leaves an ascending stack, and reverts never fail. */
  lemma StepKeepsStack<S(!new)>(exec: Executor<S>, base: S, db: Database<S>, stack: seq<Migration>,
      binary: seq<Migration>, plan: seq<Transaction>)
    returns (next: seq<Migration>)
    requires Represents(exec, base, db, stack) && SharedFirst(binary, db.records)
    requires WellSorted(binary) && AllInvertible(exec, binary) && IsPlan(plan, binary, db.records) && plan != []
    ensures plan[0].Revert? ==>
              plan[0].id in db.records && !Blank(db.records[plan[0].id]) && After(exec, db, plan[0]).Some?
    ensures After(exec, db, plan[0]).Some? ==>
              && Represents(exec, base, After(exec, db, plan[0]).value, next)
              && SharedFirst(binary, After(exec, db, plan[0]).value.records)
  {
    var ids :| Descending(ids) && Elements(ids) == Unknown(binary, db.records)
        && plan == Reverts(ids) + Advances(Missing(binary, db.records));
    if ids != [] {
      TopIsReverted(exec, base, db, stack, binary, ids);
      PopStack(exec, base, db, stack);
      assert ids[0] in Elements(ids);
      RevertKeepsSharedFirst(binary, db.records, ids[0]);
      next := stack[..|stack| - 1];
    } else {
      assert Elements(ids) == {};
      var m := Missing(binary, db.records)[0];
      assert plan[0] == Advance(m);
      AdvanceKeepsSharedFirst(binary, db.records);
      MissingIsOwn(binary, db.records, 0);
      forall i | 0 <= i < |stack| ensures Less(stack[i].id, m.id) {
        assert Has(stack, stack[i].id);
        StackIds(stack, stack[i].id);
      }
      next := stack + [m];
      if After(exec, db, Advance(m)).Some? {
        PushStack(exec, base, db, stack, m);
      }
    }
  }

  /** So does every prefix of a plan. */
  lemma {:induction false} RunKeepsStack<S(!new)>(exec: Executor<S>, base: S, db: Database<S>,
      stack: seq<Migration>, binary: seq<Migration>, plan: seq<Transaction>, k: nat)
    returns (next: seq<Migration>)
    requires Represents(exec, base, db, stack) && SharedFirst(binary, db.records)
    requires WellSorted(binary) && AllInvertible(exec, binary) && IsPlan(plan, binary, db.records) && k <= |plan|
    requires AfterAll(exec, db, plan[..k]).Some?
    ensures Represents(exec, base, AfterAll(exec, db, plan[..k]).value, next)
    decreases k
  {
    if k == 0 {
      next := stack;
    } else {
      assert plan[..k][0] == plan[0] && plan[..k][1..] == plan[1..][..k - 1];
      var above := StepKeepsStack(exec, base, db, stack, binary, plan);
      RestIsPlan(plan, binary, db.records);
      next := RunKeepsStack(exec, base, After(exec, db, plan[0]).value, above, binary, plan[1..], k - 1);
    }
  }

  /** One run of one binary: its plan, and how many of its transactions were committed. */
  datatype Run = Run(binary: seq<Migration>, plan: seq<Transaction>, committed: nat)

  ghost predicate IsHistory<S(!new)>(exec: Executor<S>, dbs: seq<Database<S>>, runs: seq<Run>) {
    && |dbs| == |runs| + 1
    && forall i | 0 <= i < |runs| ::
         && WellSorted(runs[i].binary) && AllInvertible(exec, runs[i].binary)
             && SharedFirst(runs[i].binary, dbs[i].records)
         && IsPlan(runs[i].plan, runs[i].binary, dbs[i].records) && runs[i].committed <= |runs[i].plan|
         && AfterAll(exec, dbs[i], runs[i].plan[..runs[i].committed]) == Some(dbs[i + 1])
  }

  /**
   Over any sequence of finished and interrupted runs of any binaries, upgrades and downgrades,
   the schema is always the recorded migrations applied in ascending order, and a finished run
   leaves exactly its binary's ids.
   */
  lemma {:induction false} StackInvariant<S(!new)>(exec: Executor<S>, base: S, dbs: seq<Database<S>>,
      runs: seq<Run>, i: nat, stack: seq<Migration>)
    returns (last: seq<Migration>)
    requires IsHistory(exec, dbs, runs) && Represents(exec, base, dbs[0], stack) && i < |dbs|
    ensures Represents(exec, base, dbs[i], last)
    ensures i > 0 && runs[i - 1].committed == |runs[i - 1].plan| ==> forall id ::
              id in dbs[i].records <==> Has(runs[i - 1].binary, id)
  {
    if i == 0 {
      last := stack;
    } else {
      var run := runs[i - 1];
      assert AfterAll(exec, dbs[i - 1], run.plan[..run.committed]) == Some(dbs[i - 1 + 1]);
      last := StackInvariant(exec, base, dbs, runs, i - 1, stack);
      last := RunKeepsStack(exec, base, dbs[i - 1], last, run.binary, run.plan, run.committed);
      SuffixIsPlan(run.plan, run.binary, dbs[i - 1].records, run.committed);
      AfterAllRecords(exec, dbs[i - 1], run.plan[..run.committed]);
      if run.committed == |run.plan| {
        NothingLeft(run.binary, dbs[i].records);
      }
    }
  }
}
