/**
 * The `ExerciseSelector` object: it owns the bank, removes consumed
 * exercises from it in place, and can go back to the bank it was built with.
 * Reading the JSON file is replaced by the bank handed to the constructor,
 * which is also kept as the ghost `loaded` that `reset` reloads.
 */
module ExerciseSelection {
  import opened Common
  import opened ExerciseBank
  import opened Selector
  import opened Removal

  /** Every record has a "name" key; `remove_exercise` raises KeyError on one that does not. */
  predicate AllNamed(bank: Bank)
  {
    forall i, j, k :: 0 <= i < |bank| && 0 <= j < |bank[i].parts| && 0 <= k < |bank[i].parts[j].records| ==>
      bank[i].parts[j].records[k].name.Present?
  }

  /** No body-part list has two records named `n` side by side. */
  predicate NoAdjacent(bank: Bank, n: string)
  {
    forall i, j :: 0 <= i < |bank| && 0 <= j < |bank[i].parts| ==> !AdjacentNamed(bank[i].parts[j].records, n)
  }

  /** No record anywhere in the bank is named `n`. */
  predicate Absent(bank: Bank, n: string)
  {
    forall i, j, k :: 0 <= i < |bank| && 0 <= j < |bank[i].parts| && 0 <= k < |bank[i].parts[j].records| ==>
      !Named(bank[i].parts[j].records[k], n)
  }

  function RemoveFromPart(p: Part, n: string): Part
  {
    Part(p.key, RemoveNamed(p.records, n))
  }

  function RemoveFromCategory(c: Category, n: string): Category
  {
    Category(c.key, seq(|c.parts|, j requires 0 <= j < |c.parts| => RemoveFromPart(c.parts[j], n)))
  }

  /** The bank after `remove_exercise(n)`: every body-part list scanned, every key kept. */
  function RemoveFromBank(bank: Bank, n: string): (r: Bank)
    ensures SameShape(bank, r)
  {
    seq(|bank|, i requires 0 <= i < |bank| => RemoveFromCategory(bank[i], n))
  }

  /**
   * remove_exercise keeps every category and body-part key, deletes no record
   * with another name (those keep their order), keeps every record named,
   * and leaves no record named `n` when no list holds two of them side by side.
   */
  lemma RemoveFromBankSpec(bank: Bank, n: string)
    ensures CategoryKeys(RemoveFromBank(bank, n)) == CategoryKeys(bank)
    ensures forall i, j :: 0 <= i < |bank| && 0 <= j < |bank[i].parts| ==>
              Others(RemoveFromBank(bank, n)[i].parts[j].records, n) == Others(bank[i].parts[j].records, n)
    ensures AllNamed(bank) ==> AllNamed(RemoveFromBank(bank, n))
    ensures NoAdjacent(bank, n) ==> Absent(RemoveFromBank(bank, n), n)
  {
    var r := RemoveFromBank(bank, n);
    forall i, j | 0 <= i < |bank| && 0 <= j < |bank[i].parts|
      ensures Others(r[i].parts[j].records, n) == Others(bank[i].parts[j].records, n)
      ensures forall k :: 0 <= k < |r[i].parts[j].records| ==> r[i].parts[j].records[k] in bank[i].parts[j].records
      ensures !AdjacentNamed(bank[i].parts[j].records, n) ==>
                forall k :: 0 <= k < |r[i].parts[j].records| ==> !Named(r[i].parts[j].records[k], n)
    {
      var xs := bank[i].parts[j].records;
      RemoveNamedSpec(xs, n);
      assert r[i].parts[j].records == RemoveNamed(xs, n);
      forall k | 0 <= k < |RemoveNamed(xs, n)| ensures RemoveNamed(xs, n)[k] in xs {
        assert RemoveNamed(xs, n)[k] in multiset(RemoveNamed(xs, n));
      }
    }
  }

  /** Removing a name that appears nowhere leaves the bank as it was. */
  lemma RemoveAbsentIsNoop(bank: Bank, n: string)
    requires Absent(bank, n)
    ensures RemoveFromBank(bank, n) == bank
  {
    var r := RemoveFromBank(bank, n);
    forall i | 0 <= i < |bank| ensures r[i] == bank[i] {
      forall j | 0 <= j < |bank[i].parts| ensures r[i].parts[j] == bank[i].parts[j] {
        ScanAbsentIsNoop(bank[i].parts[j].records, 0, n);
      }
    }
  }

  /** Whether a query raises depends only on the keys, so removal never changes it. */
  lemma RaisesDependsOnKeys(a: Bank, b: Bank, category: Option<string>, bodyPart: Option<string>, picks: Picks)
    requires SameShape(a, b)
    ensures Raises(a, category, bodyPart, picks) == Raises(b, category, bodyPart, picks)
  {
    assert CategoryKeys(a) == CategoryKeys(b);
    forall i | 0 <= i < |a| ensures |a[i].parts| == |b[i].parts| {
      assert |PartKeys(a[i].parts)| == |PartKeys(b[i].parts)|;
    }
  }

  /**
   * After `remove_exercise(n)`, no query selects `n` again, provided no list
   * held two records named `n` side by side (otherwise one of them survives).
   */
  lemma SelectAfterRemove(bank: Bank, n: string, category: Option<string>, bodyPart: Option<string>, picks: Picks)
    requires NoAdjacent(bank, n)
    requires !Raises(bank, category, bodyPart, picks)
    ensures !Raises(RemoveFromBank(bank, n), category, bodyPart, picks)
    ensures Select(RemoveFromBank(bank, n), category, bodyPart, picks).Found? ==>
              Select(RemoveFromBank(bank, n), category, bodyPart, picks).name != n
  {
    var r := RemoveFromBank(bank, n);
    RaisesDependsOnKeys(bank, r, category, bodyPart, picks);
    RemoveFromBankSpec(bank, n);
  }

  /** Within each body-part list no two records share a name. */
  predicate UniqueNames(bank: Bank)
  {
    forall i, j :: 0 <= i < |bank| && 0 <= j < |bank[i].parts| ==> DistinctNames(bank[i].parts[j].records)
  }

  /**
   * With unique names per list, remove_exercise(n) deletes every record
   * named `n`, and the lists keep unique names.
   */
  lemma RemoveKeepsUnique(bank: Bank, n: string)
    requires UniqueNames(bank)
    ensures UniqueNames(RemoveFromBank(bank, n))
    ensures Absent(RemoveFromBank(bank, n), n)
  {
    var r := RemoveFromBank(bank, n);
    forall i, j | 0 <= i < |bank| && 0 <= j < |bank[i].parts|
      ensures DistinctNames(r[i].parts[j].records)
      ensures forall k :: 0 <= k < |r[i].parts[j].records| ==> !Named(r[i].parts[j].records[k], n)
    {
      var xs := bank[i].parts[j].records;
      assert r[i].parts[j].records == RemoveNamed(xs, n);
      RemoveNamedSpec(xs, n);
      OthersDistinct(xs, n);
    }
  }

  /** remove_exercise only deletes records, so a name absent from the bank stays absent. */
  lemma RemoveKeepsAbsent(bank: Bank, m: string, n: string)
    requires Absent(bank, n)
    ensures Absent(RemoveFromBank(bank, m), n)
  {
    var r := RemoveFromBank(bank, m);
    forall i, j, k | 0 <= i < |bank| && 0 <= j < |bank[i].parts| && 0 <= k < |r[i].parts[j].records|
      ensures !Named(r[i].parts[j].records[k], n)
    {
      var xs := bank[i].parts[j].records;
      var ys := r[i].parts[j].records;
      assert ys == RemoveNamed(xs, m);
      RemoveNamedSpec(xs, m);
      assert ys[k] in multiset(ys);
      assert ys[k] in xs;
    }
  }

  /** A selection only returns names of records in the bank. */
  lemma SelectAbsent(bank: Bank, n: string, category: Option<string>, bodyPart: Option<string>, picks: Picks)
    requires Absent(bank, n)
    requires !Raises(bank, category, bodyPart, picks)
    ensures Select(bank, category, bodyPart, picks).Found? ==> Select(bank, category, bodyPart, picks).name != n
  {
  }

  /** The skipped adjacent duplicate can still be selected after it "was removed". */
  lemma SelectAfterRemoveCanReturnName(a1: Record, a2: Record, n: string, l: string)
    requires a1.name == Present(n) && a2.name == Present(n) && a2.link == Present(l) && a1 != a2
    ensures var bank := [Category("c", [Part("b", [a1, a2])])];
            Select(RemoveFromBank(bank, n), Some("c"), Some("b"), Picks(0, 0, 0)) == Found(n, l)
  {
    var bank := [Category("c", [Part("b", [a1, a2])])];
    AdjacentDuplicateSurvives(a1, a2, n);
    var r := RemoveFromBank(bank, n);
    assert r[0] == RemoveFromCategory(bank[0], n);
    assert r[0].parts[0] == RemoveFromPart(bank[0].parts[0], n) == Part("b", [a2]);
    assert r[0].parts == [Part("b", [a2])];
    assert r == [Category("c", [Part("b", [a2])])];
    assert CategoryKeys(r) == ["c"];
    assert PartKeys(r[0].parts) == ["b"];
  }

  /** One body-part list scanned by `for exercise in exercises: ... exercises.remove(exercise)`. */
  method RemoveFromList(xs: seq<Record>, n: string) returns (ys: seq<Record>)
    requires forall k :: 0 <= k < |xs| ==> xs[k].name.Present?
    ensures ys == RemoveNamed(xs, n)
  {
    ys := xs;
    var i := 0;
    while i < |ys|
      invariant Scan(ys, i, n) == Scan(xs, 0, n)
      invariant forall k :: 0 <= k < |ys| ==> ys[k] in xs
      decreases |ys| - i
    {
      if ys[i].name == Present(n) {
        var zs := RemoveFirst(ys, ys[i]);
        forall k | 0 <= k < |zs| ensures zs[k] in xs {
          assert zs[k] == ys[if k < FirstIndex(ys, ys[i]) then k else k + 1];
        }
        ys := zs;
      }
      i := i + 1;
    }
  }

  class ExerciseSelector {
    var bank: Bank
    /** The bank read when the selector was built (the JSON file, which is not modelled). */
    ghost const loaded: Bank

    /** Keys never change after loading; only records are removed. */
    ghost predicate Valid()
      reads this
    {
      SameShape(loaded, bank)
    }

    constructor (initial: Bank)
      ensures Valid() && bank == initial && loaded == initial
    {
      bank := initial;
      loaded := initial;
    }

    /** `exercise_categories()`: the category keys of the current bank, in order. */
    function ExerciseCategories(): (keys: seq<string>)
      reads this
      requires Valid()
      ensures keys == CategoryKeys(loaded)
    {
      assert CategoryKeys(bank) == CategoryKeys(loaded);
      CategoryKeys(bank)
    }

    /** `remove_exercise(n)`: scan every list of every category, in key order. */
    method RemoveExercise(n: string)
      requires Valid() && AllNamed(bank)
      modifies this
      ensures Valid() && AllNamed(bank)
      ensures bank == RemoveFromBank(old(bank), n)
    {
      ghost var before := bank;
      RemoveFromBankSpec(before, n);
      var b := bank;
      var ci := 0;
      while ci < |b|
        invariant 0 <= ci <= |b| == |before|
        invariant forall k :: 0 <= k < ci ==> b[k] == RemoveFromCategory(before[k], n)
        invariant forall k :: ci <= k < |b| ==> b[k] == before[k]
      {
        var parts := b[ci].parts;
        var pi := 0;
        while pi < |parts|
          invariant 0 <= pi <= |parts| == |before[ci].parts|
          invariant forall k :: 0 <= k < pi ==> parts[k] == RemoveFromPart(before[ci].parts[k], n)
          invariant forall k :: pi <= k < |parts| ==> parts[k] == before[ci].parts[k]
        {
          var recs := RemoveFromList(parts[pi].records, n);
          parts := parts[pi := Part(parts[pi].key, recs)];
          pi := pi + 1;
        }
        assert parts == RemoveFromCategory(before[ci], n).parts;
        b := b[ci := Category(b[ci].key, parts)];
        ci := ci + 1;
      }
      assert b == RemoveFromBank(before, n);
      bank := b;
    }

    /**
     * `reset()`: reload the bank from the selector's file, undoing every
     * removal. The file read is a parameter; reading the same file again
     * yields the bank loaded at construction.
     */
    method Reset(reread: Bank)
      requires reread == loaded
      modifies this
      ensures Valid() && bank == loaded
    {
      bank := reread;
    }
  }
}
