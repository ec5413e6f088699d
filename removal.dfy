/**
 * The list scan inside `ExerciseSelector.remove_exercise`:
 *
 *   for exercise in exercises:
 *       if exercise["name"] == exercise_name:
 *           exercises.remove(exercise)
 *
 * A Python list iterator walks an index forward over the live list.
 * `list.remove(x)` deletes the FIRST record equal to `x` (whole-record
 * equality), and the index still advances afterwards, so the record that slid
 * into the current slot is never looked at.
 */
module Removal {
  import opened ExerciseBank

  predicate Named(r: Record, n: string)
  {
    r.name == Present(n)
  }

  /** Number of records of `s` named `n`. */
  function Count(s: seq<Record>, n: string): nat
  {
    if s == [] then 0 else (if Named(s[0], n) then 1 else 0) + Count(s[1..], n)
  }

  /** The records of `s` not named `n`, in their order. */
  function Others(s: seq<Record>, n: string): seq<Record>
  {
    if s == [] then [] else (if Named(s[0], n) then [] else [s[0]]) + Others(s[1..], n)
  }

  /** Two records named `n` stand next to each other somewhere in `s`. */
  predicate AdjacentNamed(s: seq<Record>, n: string)
  {
    exists k :: 0 <= k < |s| - 1 && Named(s[k], n) && Named(s[k + 1], n)
  }

  /** Position of the first record equal to `x`. */
  function FirstIndex(ys: seq<Record>, x: Record): (j: nat)
    requires x in ys
    ensures j < |ys| && ys[j] == x
    ensures forall k :: 0 <= k < j ==> ys[k] != x
  {
    if ys[0] == x then 0 else 1 + FirstIndex(ys[1..], x)
  }

  /** `list.remove(x)`: delete the first record equal to `x`. */
  function RemoveFirst(ys: seq<Record>, x: Record): (zs: seq<Record>)
    requires x in ys
    ensures |zs| == |ys| - 1
    ensures multiset(zs) == multiset(ys) - multiset{x}
    ensures forall k :: 0 <= k < FirstIndex(ys, x) ==> zs[k] == ys[k]
    ensures forall k :: FirstIndex(ys, x) <= k < |zs| ==> zs[k] == ys[k + 1]
  {
    var j := FirstIndex(ys, x);
    var zs := ys[..j] + ys[j + 1..];
    assert ys == ys[..j] + [ys[j]] + ys[j + 1..];
    assert multiset(ys) == multiset(ys[..j]) + multiset{x} + multiset(ys[j + 1..]);
    assert forall k :: j <= k < |zs| ==> zs[k] == ys[k + 1] by {
      forall k | j <= k < |zs| ensures zs[k] == ys[k + 1] {
        assert zs[k] == ys[j + 1..][k - j];
      }
    }
    zs
  }

  /** The loop above, started at index `i` of the live list `ys`. */
  function Scan(ys: seq<Record>, i: nat, n: string): seq<Record>
    decreases |ys| - i
  {
    if i >= |ys| then ys
    else if Named(ys[i], n) then Scan(RemoveFirst(ys, ys[i]), i + 1, n)
    else Scan(ys, i + 1, n)
  }

  /** The state of one body-part list after `remove_exercise(n)`. */
  function RemoveNamed(xs: seq<Record>, n: string): seq<Record>
  {
    Scan(xs, 0, n)
  }

  /**
   * The matching records the scan steps over without looking at them: each
   * match at position k hides the record at k + 1. The scan's visits depend
   * only on the original list, because a removal never touches a record the
   * scan has not reached.
   */
  function Skipped(s: seq<Record>, n: string): nat
    decreases |s|
  {
    if |s| == 0 then 0
    else if !Named(s[0], n) then Skipped(s[1..], n)
    else if |s| == 1 then 0
    else (if Named(s[1], n) then 1 else 0) + Skipped(s[2..], n)
  }

  lemma {:induction false} CountAppend(a: seq<Record>, b: seq<Record>, n: string)
    ensures Count(a + b, n) == Count(a, n) + Count(b, n)
    ensures Others(a + b, n) == Others(a, n) + Others(b, n)
  {
    if a == [] {
      assert a + b == b;
    } else {
      assert (a + b)[1..] == a[1..] + b;
      CountAppend(a[1..], b, n);
    }
  }

  lemma CountOne(r: Record, n: string)
    ensures Count([r], n) == if Named(r, n) then 1 else 0
    ensures Others([r], n) == if Named(r, n) then [] else [r]
  {
    assert [r][1..] == [];
  }

  /** Deleting position j takes one record off the count and leaves the others. */
  lemma DeleteAt(ys: seq<Record>, j: nat, n: string)
    requires j < |ys|
    ensures Count(ys[..j] + ys[j + 1..], n) + (if Named(ys[j], n) then 1 else 0) == Count(ys, n)
    ensures Named(ys[j], n) ==> Others(ys[..j] + ys[j + 1..], n) == Others(ys, n)
  {
    assert ys == ys[..j] + ([ys[j]] + ys[j + 1..]);
    CountAppend(ys[..j], [ys[j]] + ys[j + 1..], n);
    CountAppend([ys[j]], ys[j + 1..], n);
    CountAppend(ys[..j], ys[j + 1..], n);
    CountOne(ys[j], n);
  }

  /** The scan only deletes records named `n`: every other record survives, in order. */
  lemma {:induction false} ScanKeepsOthers(ys: seq<Record>, i: nat, n: string)
    ensures Others(Scan(ys, i, n), n) == Others(ys, n)
    decreases |ys| - i
  {
    if i < |ys| {
      if Named(ys[i], n) {
        var j := FirstIndex(ys, ys[i]);
        assert RemoveFirst(ys, ys[i]) == ys[..j] + ys[j + 1..];
        DeleteAt(ys, j, n);
        ScanKeepsOthers(RemoveFirst(ys, ys[i]), i + 1, n);
        assert Scan(ys, i, n) == Scan(RemoveFirst(ys, ys[i]), i + 1, n);
      } else {
        ScanKeepsOthers(ys, i + 1, n);
      }
    }
  }

  /** The scan only deletes: what is left is a sub-multiset of the list. */
  lemma {:induction false} ScanShrinks(ys: seq<Record>, i: nat, n: string)
    ensures multiset(Scan(ys, i, n)) <= multiset(ys)
    decreases |ys| - i
  {
    if i < |ys| {
      if Named(ys[i], n) {
        ScanShrinks(RemoveFirst(ys, ys[i]), i + 1, n);
      } else {
        ScanShrinks(ys, i + 1, n);
      }
    }
  }

  /** Extending a prefix by one record adds that record to the count. */
  lemma CountPrefixStep(ys: seq<Record>, i: nat, n: string)
    requires i < |ys|
    ensures Count(ys[..i + 1], n) == Count(ys[..i], n) + (if Named(ys[i], n) then 1 else 0)
  {
    assert ys[..i + 1] == ys[..i] + [ys[i]];
    CountAppend(ys[..i], [ys[i]], n);
    CountOne(ys[i], n);
  }

  /** Deleting a matching record at j <= i shortens the count of the first i + 2 records by one. */
  lemma DeletedPrefix(ys: seq<Record>, j: nat, i: nat, n: string)
    requires j <= i && i + 2 <= |ys| && Named(ys[j], n)
    ensures Count((ys[..j] + ys[j + 1..])[..i + 1], n) + 1 == Count(ys[..i + 2], n)
  {
    var p := ys[..i + 2];
    assert (ys[..j] + ys[j + 1..])[..i + 1] == p[..j] + p[j + 1..];
    DeleteAt(p, j, n);
  }

  /** One step of Skipped at position i of `ys`. */
  lemma SkippedAt(ys: seq<Record>, i: nat, n: string)
    requires i < |ys|
    ensures !Named(ys[i], n) ==> Skipped(ys[i..], n) == Skipped(ys[i + 1..], n)
    ensures Named(ys[i], n) && i + 1 == |ys| ==> Skipped(ys[i..], n) == 0
    ensures Named(ys[i], n) && i + 1 < |ys| ==>
              Skipped(ys[i..], n) == (if Named(ys[i + 1], n) then 1 else 0) + Skipped(ys[i + 2..], n)
  {
    var s := ys[i..];
    assert s[0] == ys[i];
    assert s[1..] == ys[i + 1..];
    if i + 1 < |ys| {
      assert s[1] == ys[i + 1];
      assert s[2..] == ys[i + 2..];
    }
  }

  /** As many survivors are named `n` as there are such records before `i`, plus as many as the rest of the scan skips. */
  lemma {:induction false} ScanCount(ys: seq<Record>, i: nat, n: string)
    requires i <= |ys|
    ensures Count(Scan(ys, i, n), n) == Count(ys[..i], n) + Skipped(ys[i..], n)
    decreases |ys| - i
  {
    if i == |ys| {
      assert ys[..i] == ys;
      assert ys[i..] == [];
    } else if Named(ys[i], n) {
      ScanCountMatch(ys, i, n);
    } else {
      ScanCount(ys, i + 1, n);
      CountPrefixStep(ys, i, n);
      SkippedAt(ys, i, n);
    }
  }

  lemma {:induction false} ScanCountMatch(ys: seq<Record>, i: nat, n: string)
    requires i < |ys| && Named(ys[i], n)
    ensures Count(Scan(ys, i, n), n) == Count(ys[..i], n) + Skipped(ys[i..], n)
    decreases |ys| - i, 0
  {
    var j := FirstIndex(ys, ys[i]);
    var zs := RemoveFirst(ys, ys[i]);
    assert Scan(ys, i, n) == Scan(zs, i + 1, n);
    assert j <= i;
    assert zs == ys[..j] + ys[j + 1..];
    SkippedAt(ys, i, n);
    if i + 1 < |ys| {
      ScanCount(zs, i + 1, n);
      assert zs[i + 1..] == ys[i + 2..];
      DeletedPrefix(ys, j, i, n);
      CountPrefixStep(ys, i + 1, n);
      CountPrefixStep(ys, i, n);
    } else {
      assert Scan(zs, i + 1, n) == zs;
      DeleteAt(ys, j, n);
      assert ys[..i + 1] == ys;
      CountPrefixStep(ys, i, n);
    }
  }

  /** Some matching record is skipped exactly when two matching records are adjacent. */
  lemma {:induction false} SkippedIffAdjacent(s: seq<Record>, n: string)
    ensures Skipped(s, n) == 0 <==> !AdjacentNamed(s, n)
    decreases |s|
  {
    if |s| == 0 {
    } else if !Named(s[0], n) {
      SkippedIffAdjacent(s[1..], n);
      if AdjacentNamed(s, n) {
        var k :| 0 <= k < |s| - 1 && Named(s[k], n) && Named(s[k + 1], n);
        assert Named(s[1..][k - 1], n) && Named(s[1..][k], n);
      }
      if AdjacentNamed(s[1..], n) {
        var k :| 0 <= k < |s[1..]| - 1 && Named(s[1..][k], n) && Named(s[1..][k + 1], n);
        assert Named(s[k + 1], n) && Named(s[k + 2], n);
      }
    } else if |s| == 1 {
    } else if Named(s[1], n) {
      assert Named(s[0], n) && Named(s[1], n);
    } else {
      SkippedIffAdjacent(s[2..], n);
      if AdjacentNamed(s, n) {
        var k :| 0 <= k < |s| - 1 && Named(s[k], n) && Named(s[k + 1], n);
        assert k >= 2;
        assert Named(s[2..][k - 2], n) && Named(s[2..][k - 1], n);
      }
      if AdjacentNamed(s[2..], n) {
        var k :| 0 <= k < |s[2..]| - 1 && Named(s[2..][k], n) && Named(s[2..][k + 1], n);
        assert Named(s[k + 2], n) && Named(s[k + 3], n);
      }
    }
  }

  lemma {:induction false} NoneNamed(s: seq<Record>, n: string)
    ensures Count(s, n) == 0 <==> forall k :: 0 <= k < |s| ==> !Named(s[k], n)
    ensures Count(s, n) == 0 ==> Others(s, n) == s
  {
    if s != [] {
      NoneNamed(s[1..], n);
      if Count(s, n) == 0 {
        assert forall k :: 1 <= k < |s| ==> s[k] == s[1..][k - 1];
      }
      if forall k :: 0 <= k < |s| ==> !Named(s[k], n) {
        assert forall k :: 0 <= k < |s[1..]| ==> s[1..][k] == s[k + 1];
      }
    }
  }

  /**
   * remove_exercise on one list: it deletes only records named `n`, keeps the
   * order of all others, and as many records named `n` survive as the scan
   * skipped. Hence every record named `n` is gone if and only if no two of
   * them were adjacent.
   */
  lemma RemoveNamedSpec(xs: seq<Record>, n: string)
    ensures Others(RemoveNamed(xs, n), n) == Others(xs, n)
    ensures multiset(RemoveNamed(xs, n)) <= multiset(xs)
    ensures Count(RemoveNamed(xs, n), n) == Skipped(xs, n)
    ensures !AdjacentNamed(xs, n) <==> forall k :: 0 <= k < |RemoveNamed(xs, n)| ==> !Named(RemoveNamed(xs, n)[k], n)
    ensures !AdjacentNamed(xs, n) ==> RemoveNamed(xs, n) == Others(xs, n)
  {
    ScanKeepsOthers(xs, 0, n);
    ScanShrinks(xs, 0, n);
    ScanCount(xs, 0, n);
    assert xs[..0] == [] && xs[0..] == xs;
    SkippedIffAdjacent(xs, n);
    NoneNamed(RemoveNamed(xs, n), n);
  }

  /** Removing a name that no record carries leaves the list as it is. */
  lemma {:induction false} ScanAbsentIsNoop(ys: seq<Record>, i: nat, n: string)
    requires forall k :: 0 <= k < |ys| ==> !Named(ys[k], n)
    ensures Scan(ys, i, n) == ys
    decreases |ys| - i
  {
    if i < |ys| {
      ScanAbsentIsNoop(ys, i + 1, n);
    }
  }

  /** No two records of `s` carry the same name. */
  predicate DistinctNames(s: seq<Record>)
  {
    forall k1, k2 :: 0 <= k1 < k2 < |s| ==> s[k1].name != s[k2].name
  }

  /** `Others` keeps only records of `s`, so names that were distinct stay distinct. */
  lemma {:induction false} OthersDistinct(s: seq<Record>, n: string)
    requires DistinctNames(s)
    ensures forall r :: r in Others(s, n) ==> r in s
    ensures DistinctNames(Others(s, n))
    decreases |s|
  {
    if s != [] {
      var tail := s[1..];
      assert forall k :: 0 <= k < |tail| ==> tail[k] == s[k + 1];
      OthersDistinct(tail, n);
      var rest := Others(tail, n);
      forall k | 0 <= k < |rest| ensures rest[k].name != s[0].name {
        assert rest[k] in rest;
        var j :| 0 <= j < |tail| && tail[j] == rest[k];
        assert s[j + 1] == rest[k];
      }
      if !Named(s[0], n) {
        var o := [s[0]] + rest;
        forall k1, k2 | 0 <= k1 < k2 < |o| ensures o[k1].name != o[k2].name {
          if k1 == 0 {
            assert o[k2] == rest[k2 - 1];
          } else {
            assert o[k1] == rest[k1 - 1] && o[k2] == rest[k2 - 1];
          }
        }
      }
    }
  }

  /**
   * Two different records with the same name side by side: the first is
   * removed, the second slides into its slot, is skipped, and survives.
   */
  lemma AdjacentDuplicateSurvives(a1: Record, a2: Record, n: string)
    requires Named(a1, n) && Named(a2, n) && a1 != a2
    ensures RemoveNamed([a1, a2], n) == [a2]
  {
    assert FirstIndex([a1, a2], a1) == 0;
    assert RemoveFirst([a1, a2], a1) == [a2];
    assert Scan([a1, a2], 0, n) == Scan([a2], 1, n) == [a2];
  }
}
