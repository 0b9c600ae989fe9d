/** The order of migration ids: byte-wise, which on UTF-8 is by character; a prefix comes first. */
module Ids {

  predicate Less(a: string, b: string) {
    |b| > 0 && (|a| == 0 || a[0] < b[0] || (a[0] == b[0] && Less(a[1..], b[1..])))
  }

  /** The two agree up to this position, where the first one has the smaller character. */
  predicate SmallerAt(a: string, b: string, k: nat) {
    k < |a| && k < |b| && a[..k] == b[..k] && a[k] < b[k]
  }

  /** What the order is: a proper prefix comes first, and otherwise the first character that differs decides. */
  ghost predicate ComesFirst(a: string, b: string) {
    (|a| < |b| && a == b[..|a|]) || exists k :: SmallerAt(a, b, k)
  }

  lemma AgreeingHeads(a: string, b: string, k: nat)
    requires a != [] && b != []
    ensures SmallerAt(a, b, k + 1) <==> a[0] == b[0] && SmallerAt(a[1..], b[1..], k)
  {
    if k + 1 < |a| && k + 1 < |b| {
      assert a[..k + 1] == [a[0]] + a[1..][..k] && b[..k + 1] == [b[0]] + b[1..][..k];
    }
  }

  lemma AgreeingPrefix(a: string, b: string)
    requires a != [] && b != [] && |a| < |b|
    ensures a == b[..|a|] <==> a[0] == b[0] && a[1..] == b[1..][..|a| - 1]
  {
    assert a == [a[0]] + a[1..] && b[..|a|] == [b[0]] + b[1..][..|a| - 1];
  }

  lemma {:induction false} LessMeaning(a: string, b: string)
    ensures Less(a, b) <==> ComesFirst(a, b)
  {
    if a != [] && b != [] {
      LessMeaning(a[1..], b[1..]);
      if |a| < |b| {
        AgreeingPrefix(a, b);
      }
      if k: nat :| SmallerAt(a[1..], b[1..], k) {
        AgreeingHeads(a, b, k);
      }
      if k: nat :| SmallerAt(a, b, k) && k > 0 {
        AgreeingHeads(a, b, k - 1);
      }
      assert a[0] < b[0] ==> SmallerAt(a, b, 0);
    }
  }

  lemma {:induction false} LessIsTotal(a: string, b: string)
    ensures a == b || Less(a, b) || Less(b, a)
  {
    if a != [] && b != [] {
      LessIsTotal(a[1..], b[1..]);
      assert a == [a[0]] + a[1..] && b == [b[0]] + b[1..];
    }
  }

  lemma {:induction false} LessIsStrict(a: string, b: string)
    requires Less(a, b)
    ensures a != b && !Less(b, a)
  {
    if a != [] && a[0] == b[0] {
      LessIsStrict(a[1..], b[1..]);
    }
  }

  lemma {:induction false} LessIsTransitive(a: string, b: string, c: string)
    requires Less(a, b) && Less(b, c)
    ensures Less(a, c)
  {
    if a != [] && a[0] == b[0] == c[0] {
      LessIsTransitive(a[1..], b[1..], c[1..]);
    }
  }

  predicate Descending(ids: seq<string>) {
    forall i, j | 0 <= i < j < |ids| :: Less(ids[j], ids[i])
  }

  function Elements(ids: seq<string>): set<string> {
    set id | id in ids
  }

  /** A set of ids can be listed in descending order in one way only. */
  lemma {:induction false} DescendingIsUnique(a: seq<string>, b: seq<string>)
    requires Descending(a) && Descending(b) && Elements(a) == Elements(b)
    ensures a == b
  {
    assert b != [] ==> b[0] in Elements(b);
    if a != [] {
      assert a[0] in Elements(b);
      assert b != [];
      assert b[0] in Elements(a);
      SameLargest(a, b);
      TailElements(a);
      TailElements(b);
      DescendingIsUnique(a[1..], b[1..]);
    }
  }

  lemma SameLargest(a: seq<string>, b: seq<string>)
    requires Descending(a) && Descending(b) && a != [] && b != [] && a[0] in b && b[0] in a
    ensures a[0] == b[0]
  {
    if a[0] != b[0] {
      assert Less(a[0], b[0]) && Less(b[0], a[0]);
      LessIsStrict(a[0], b[0]);
    }
  }

  lemma TailElements(ids: seq<string>)
    requires Descending(ids) && ids != []
    ensures Descending(ids[1..]) && Elements(ids[1..]) == Elements(ids) - {ids[0]}
  {
    forall i | 0 < i < |ids| ensures ids[i] != ids[0] {
      LessIsStrict(ids[i], ids[0]);
    }
    assert forall id | id in Elements(ids) && id != ids[0] :: id in ids[1..];
  }

  /** Sorts in descending order by insertion; the ids are distinct. */
  method SortDescending(ids: seq<string>) returns (sorted: seq<string>)
    requires forall i, j | 0 <= i < j < |ids| :: ids[i] != ids[j]
    ensures Descending(sorted) && Elements(sorted) == Elements(ids)
    ensures forall i, j | 0 <= i < j < |sorted| :: ComesFirst(sorted[j], sorted[i])
  {
    sorted := [];
    for k := 0 to |ids|
      invariant Descending(sorted) && Elements(sorted) == Elements(ids[..k])
    {
      var i := 0;
      while i < |sorted| && Less(ids[k], sorted[i])
        invariant 0 <= i <= |sorted|
        invariant forall j | 0 <= j < i :: Less(ids[k], sorted[j])
      {
        i := i + 1;
      }
      assert ids[k] !in Elements(sorted);
      InsertKeepsDescending(sorted, i, ids[k]);
      assert ids[..k + 1] == ids[..k] + [ids[k]];
      assert Elements(ids[..k + 1]) == Elements(ids[..k]) + {ids[k]};
      sorted := sorted[..i] + [ids[k]] + sorted[i..];
    }
    assert ids[..|ids|] == ids;
    forall i, j | 0 <= i < j < |sorted| ensures ComesFirst(sorted[j], sorted[i]) {
      LessMeaning(sorted[j], sorted[i]);
    }
  }

  lemma InsertKeepsDescending(sorted: seq<string>, i: nat, id: string)
    requires Descending(sorted) && i <= |sorted| && id !in sorted
    requires forall j | 0 <= j < i :: Less(id, sorted[j])
    requires i < |sorted| ==> !Less(id, sorted[i])
    ensures var result := sorted[..i] + [id] + sorted[i..];
            Descending(result) && Elements(result) == Elements(sorted) + {id}
  {
    var result := sorted[..i] + [id] + sorted[i..];
    if i < |sorted| {
      LessIsTotal(id, sorted[i]);
      forall j | i <= j < |sorted| ensures Less(sorted[j], id) {
        if i < j { LessIsTransitive(sorted[j], sorted[i], id); }
      }
    }
    assert forall j | 0 <= j < |sorted| :: sorted[j] in result by {
      forall j | 0 <= j < |sorted| ensures sorted[j] in result {
        assert sorted[j] == if j < i then result[j] else result[j + 1];
      }
    }
    assert id == result[i];
  }
}
