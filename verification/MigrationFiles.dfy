/** Loading a binary's migrations: every forward script is paired with its reverse. */
module MigrationFiles {
  import opened Common
  import opened Ids
  import opened Migrations

  datatype File = File(name: string, directory: bool, content: string)

  const SUFFIX := ".sql"
  const REVERSE_SUFFIX := ".reverse.sql"

  predicate HasSuffix(s: string, suffix: string) {
    |s| >= |suffix| && s[|s| - |suffix|..] == suffix
  }

  function TrimSuffix(s: string, suffix: string): (r: string)
    requires HasSuffix(s, suffix)
    ensures s == r + suffix
  {
    s[..|s| - |suffix|]
  }

  /** Without the white space around it. */
  function Trim(s: string): (r: string)
    ensures r == "" || (!IsSpace(r[0]) && !IsSpace(r[|r| - 1]))
    ensures Blank(s) <==> r == ""
  {
    if s == "" then ""
    else if IsSpace(s[0]) then assert s == [s[0]] + s[1..]; Trim(s[1..])
    else if IsSpace(s[|s| - 1]) then assert s == s[..|s| - 1] + [s[|s| - 1]]; Trim(s[..|s| - 1])
    else s
  }

  lemma OneMoreBlank(c: char, before: string, piece: string, after: string)
    requires IsSpace(c) && Blank(before) && Blank(after)
    ensures Blank([c] + before) && [c] + (before + piece + after) == ([c] + before) + piece + after
    ensures Blank(after + [c]) && (before + piece + after) + [c] == before + piece + (after + [c])
  {
  }

  /** What is trimmed away is white space, and what is left is a piece of the script. */
  lemma {:induction false} TrimIsPiece(s: string) returns (before: string, after: string)
    ensures s == before + Trim(s) + after && Blank(before) && Blank(after)
  {
    before, after := "", "";
    if s != "" && IsSpace(s[0]) {
      before, after := TrimIsPiece(s[1..]);
      assert s == [s[0]] + s[1..];
      OneMoreBlank(s[0], before, Trim(s), after);
      before := [s[0]] + before;
    } else if s != "" && IsSpace(s[|s| - 1]) {
      before, after := TrimIsPiece(s[..|s| - 1]);
      assert s == s[..|s| - 1] + [s[|s| - 1]];
      OneMoreBlank(s[|s| - 1], before, Trim(s), after);
      after := after + [s[|s| - 1]];
    }
  }

  datatype Half = Forward | Reverse

  /** The migration a file holds the given half of. */
  function IdOf(f: File, half: Half): (r: Option<string>)
    ensures r.Some? ==> !f.directory && f.name == r.value + (if half.Reverse? then REVERSE_SUFFIX else SUFFIX)
    ensures r.Some? <==>
              !f.directory && HasSuffix(f.name, SUFFIX) && (HasSuffix(f.name, REVERSE_SUFFIX) <==> half.Reverse?)
  {
    if f.directory || HasSuffix(f.name, REVERSE_SUFFIX) != half.Reverse? || !HasSuffix(f.name, SUFFIX) then None
    else if half.Reverse? then Some(TrimSuffix(f.name, REVERSE_SUFFIX))
    else Some(TrimSuffix(f.name, SUFFIX))
  }

  predicate Holds(files: seq<File>, half: Half, id: string) {
    exists k | 0 <= k < |files| :: IdOf(files[k], half) == Some(id)
  }

  /** A directory lists a name once. */
  predicate Distinct(files: seq<File>) {
    forall i, j | 0 <= i < j < |files| :: files[i].name != files[j].name
  }

  /** Every script has its other half. */
  ghost predicate Paired(files: seq<File>) {
    forall id :: Holds(files, Forward, id) <==> Holds(files, Reverse, id)
  }

  /** The scripts of one half, by id. */
  ghost predicate Scripts(files: seq<File>, half: Half, scripts: map<string, string>) {
    && (forall id :: id in scripts <==> Holds(files, half, id))
    && (forall k | 0 <= k < |files| && IdOf(files[k], half).Some? ::
          scripts[IdOf(files[k], half).value] == Trim(files[k].content))
  }

  /** One migration per id, with both of its scripts, in ascending order. */
  ghost predicate Assembled(ms: seq<Migration>, forward: map<string, string>, reverse: map<string, string>) {
    && WellSorted(ms)
    && (forall id :: Has(ms, id) <==> id in forward)
    && (forall m | m in ms ::
        m.id in forward && m.sql == forward[m.id] && m.id in reverse && m.reverse == reverse[m.id])
  }

  /** What a directory loads as: exactly the scripts in it. */
  ghost predicate Loaded(files: seq<File>, ms: seq<Migration>) {
    exists forward, reverse ::
      && Scripts(files, Forward, forward) && Scripts(files, Reverse, reverse)
      && forward.Keys == reverse.Keys && Assembled(ms, forward, reverse)
  }

  lemma OneMoreHolds(files: seq<File>, f: File, half: Half, id: string)
    ensures Holds(files + [f], half, id) <==> Holds(files, half, id) || IdOf(f, half) == Some(id)
  {
    var longer := files + [f];
    if Holds(files, half, id) {
      var k :| 0 <= k < |files| && IdOf(files[k], half) == Some(id);
      assert IdOf(longer[k], half) == Some(id);
    }
    if IdOf(f, half) == Some(id) {
      assert IdOf(longer[|files|], half) == Some(id);
    }
  }

  lemma OtherNameOtherId(f: File, g: File, half: Half)
    requires f.name != g.name
    ensures IdOf(f, half).Some? ==> IdOf(f, half) != IdOf(g, half)
  {
  }

  function WithScript(scripts: map<string, string>, f: File, half: Half): map<string, string> {
    if IdOf(f, half).None? then scripts else scripts[IdOf(f, half).value := Trim(f.content)]
  }

  lemma OneMoreScript(files: seq<File>, f: File, half: Half, scripts: map<string, string>)
    requires Scripts(files, half, scripts)
    requires forall k | 0 <= k < |files| :: files[k].name != f.name
    ensures Scripts(files + [f], half, WithScript(scripts, f, half))
  {
    var longer, more := files + [f], WithScript(scripts, f, half);
    forall id ensures id in more <==> Holds(longer, half, id) {
      OneMoreHolds(files, f, half, id);
    }
    forall k | 0 <= k < |longer| && IdOf(longer[k], half).Some?
      ensures IdOf(longer[k], half).value in more && more[IdOf(longer[k], half).value] == Trim(longer[k].content)
    {
      if k < |files| {
        assert longer[k] == files[k];
        OtherNameOtherId(files[k], f, half);
      }
    }
  }

  method Collect(files: seq<File>) returns (forward: map<string, string>, reverse: map<string, string>)
    requires Distinct(files)
    ensures Scripts(files, Forward, forward) && Scripts(files, Reverse, reverse)
  {
    forward, reverse := map[], map[];
    for i := 0 to |files|
      invariant Scripts(files[..i], Forward, forward) && Scripts(files[..i], Reverse, reverse)
    {
      var f := files[i];
      assert files[..i + 1] == files[..i] + [f];
      OneMoreScript(files[..i], f, Forward, forward);
      OneMoreScript(files[..i], f, Reverse, reverse);
      if f.directory || !HasSuffix(f.name, SUFFIX) {
        continue;
      }
      if HasSuffix(f.name, REVERSE_SUFFIX) {
        reverse := reverse[TrimSuffix(f.name, REVERSE_SUFFIX) := Trim(f.content)];
        continue;
      }
      forward := forward[TrimSuffix(f.name, SUFFIX) := Trim(f.content)];
    }
    assert files[..|files|] == files;
  }

  method MissingFrom(wanted: map<string, string>, present: map<string, string>) returns (missing: bool)
    ensures !missing <==> wanted.Keys <= present.Keys
  {
    var rest := wanted.Keys;
    while rest != {}
      invariant rest <= wanted.Keys
      invariant forall id | id in wanted && id !in rest :: id in present
    {
      var id :| id in rest;
      if id !in present {
        return true;
      }
      rest := rest - {id};
    }
    return false;
  }

  method SortedKeys(scripts: map<string, string>) returns (ids: seq<string>)
    ensures Descending(ids) && Elements(ids) == scripts.Keys
  {
    ids := [];
    var rest := scripts.Keys;
    while rest != {}
      invariant rest <= scripts.Keys && Elements(ids) == scripts.Keys - rest
      invariant forall i, j | 0 <= i < j < |ids| :: ids[i] != ids[j]
    {
      var id :| id in rest;
      assert id !in Elements(ids);
      rest := rest - {id};
      assert Elements(ids + [id]) == Elements(ids) + {id};
      ids := ids + [id];
    }
    ids := SortDescending(ids);
  }

  /** The migrations of the sorted ids. */
  method Assemble(ids: seq<string>, forward: map<string, string>, reverse: map<string, string>)
    returns (ms: seq<Migration>)
    requires Descending(ids) && Elements(ids) == forward.Keys == reverse.Keys
    ensures Assembled(ms, forward, reverse)
  {
    ms := [];
    var i := |ids|;
    while i > 0
      invariant 0 <= i <= |ids| && |ms| == |ids| - i
      invariant forall j | 0 <= j < |ms| :: IsMigration(ms[j], ids[|ids| - 1 - j], forward, reverse)
    {
      i := i - 1;
      assert ids[i] in Elements(ids);
      ms := ms + [Migration(ids[i], forward[ids[i]], reverse[ids[i]])];
    }
    AssembleSorted(ids, ms, forward, reverse);
  }

  predicate IsMigration(m: Migration, id: string, forward: map<string, string>, reverse: map<string, string>) {
    id in forward && id in reverse && m == Migration(id, forward[id], reverse[id])
  }

  lemma AssembleSorted(ids: seq<string>, ms: seq<Migration>, forward: map<string, string>, reverse: map<string, string>)
    requires Descending(ids) && Elements(ids) == forward.Keys && |ms| == |ids|
    requires forall j | 0 <= j < |ms| :: IsMigration(ms[j], ids[|ids| - 1 - j], forward, reverse)
    ensures Assembled(ms, forward, reverse)
  {
    forall id ensures Has(ms, id) <==> id in forward {
      if id in forward {
        assert id in Elements(ids);
        var j :| 0 <= j < |ids| && ids[j] == id;
        assert IsMigration(ms[|ids| - 1 - j], ids[j], forward, reverse);
      }
    }
  }

  /** Loading succeeds exactly on paired scripts and then yields all of them, in ascending order. */
  method LoadMigrations(files: seq<File>) returns (result: Result<seq<Migration>, ()>)
    requires Distinct(files)
    ensures result.Ok? <==> Paired(files)
    ensures result.Ok? ==> Loaded(files, result.value)
  {
    var forward, reverse := Collect(files);
    var missing := MissingFrom(forward, reverse);
    if missing {
      return Err(());
    }
    missing := MissingFrom(reverse, forward);
    if missing {
      return Err(());
    }
    var ids := SortedKeys(forward);
    var ms := Assemble(ids, forward, reverse);
    return Ok(ms);
  }

  /** An id that itself ends like a reverse script can never be loaded. */
  lemma ReverseOfReverse(files: seq<File>, id: string)
    requires Holds(files, Reverse, id + ".reverse")
    ensures !Paired(files)
  {
    var name := id + ".reverse" + SUFFIX;
    assert name == id + REVERSE_SUFFIX;
    assert HasSuffix(name, REVERSE_SUFFIX);
    assert !Holds(files, Forward, id + ".reverse");
  }
}
