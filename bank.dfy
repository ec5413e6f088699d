/**
 * The exercise bank: a two-level mapping category -> body part -> list of
 * exercise records. Python dictionaries keep insertion order, so each level is
 * an ordered association list whose keys are distinct in a well-formed bank.
 */
module ExerciseBank {
  import opened Common

  /** A key of a JSON record: either missing (reading it raises KeyError) or present. */
  datatype Field = Missing | Present(value: string)

  /**
   * An exercise record. Only "name" and "link" are read by the selector; the
   * remaining keys matter only because `list.remove` compares whole records.
   */
  datatype Record = Record(name: Field, link: Field, other: map<string, string>)

  datatype Part = Part(key: string, records: seq<Record>)
  datatype Category = Category(key: string, parts: seq<Part>)
  type Bank = seq<Category>

  /** The category keys in insertion order (`self.exercise_bank.keys()`). */
  function CategoryKeys(bank: Bank): (keys: seq<string>)
    ensures |keys| == |bank|
    ensures forall i :: 0 <= i < |bank| ==> keys[i] == bank[i].key
  {
    seq(|bank|, i requires 0 <= i < |bank| => bank[i].key)
  }

  /** The body-part keys of one category in insertion order. */
  function PartKeys(parts: seq<Part>): (keys: seq<string>)
    ensures |keys| == |parts|
    ensures forall i :: 0 <= i < |parts| ==> keys[i] == parts[i].key
  {
    seq(|parts|, i requires 0 <= i < |parts| => parts[i].key)
  }

  /** Position of the first occurrence of `k` in `keys`: how a dictionary finds a key. */
  function IndexOf(keys: seq<string>, k: string): (r: Option<nat>)
    ensures r.Some? ==> r.value < |keys| && keys[r.value] == k
    ensures r.Some? ==> forall j :: 0 <= j < r.value ==> keys[j] != k
    ensures r.None? <==> k !in keys
  {
    if keys == [] then None
    else if keys[0] == k then Some(0)
    else match IndexOf(keys[1..], k)
      case None => None
      case Some(j) => Some(j + 1)
  }

  /** `bank[c][b]`, or None where either lookup raises KeyError. */
  function Lookup(bank: Bank, c: string, b: string): (r: Option<seq<Record>>)
    ensures r.Some? ==> exists i, j :: 0 <= i < |bank| && 0 <= j < |bank[i].parts| &&
                          bank[i].key == c && bank[i].parts[j].key == b && bank[i].parts[j].records == r.value
    ensures r.None? ==> c !in CategoryKeys(bank) ||
                        (exists i :: 0 <= i < |bank| && bank[i].key == c && b !in PartKeys(bank[i].parts))
  {
    match IndexOf(CategoryKeys(bank), c)
    case None => None
    case Some(i) =>
      match IndexOf(PartKeys(bank[i].parts), b)
      case None => None
      case Some(j) => Some(bank[i].parts[j].records)
  }

  /** Keys of a dictionary are distinct; the bank's keys are also non-empty strings. */
  predicate DistinctKeys(keys: seq<string>)
  {
    forall i, j :: 0 <= i < j < |keys| ==> keys[i] != keys[j]
  }

  predicate WellFormed(bank: Bank)
  {
    && DistinctKeys(CategoryKeys(bank))
    && (forall i :: 0 <= i < |bank| ==> bank[i].key != "")
    && (forall i :: 0 <= i < |bank| ==> DistinctKeys(PartKeys(bank[i].parts)))
    && (forall i, j :: 0 <= i < |bank| && 0 <= j < |bank[i].parts| ==> bank[i].parts[j].key != "")
  }

  /** Bank `b` has the same keys, at both levels and in the same order, as bank `a`. */
  predicate SameShape(a: Bank, b: Bank)
  {
    && |a| == |b|
    && forall i :: 0 <= i < |a| ==>
         a[i].key == b[i].key && PartKeys(a[i].parts) == PartKeys(b[i].parts)
  }
}
