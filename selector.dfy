/**
 * `ExerciseSelector.select_exercise`: resolve a partially specified
 * (category, body part) query against the bank and pick one exercise.
 *
 * `random.choice(xs)` is modelled by an index argument: the element picked is
 * `xs[p % |xs|]`, so every element of `xs` can be the one chosen. Nothing is
 * claimed about the distribution.
 */
module Selector {
  import opened Common
  import opened ExerciseBank

  /** The three `random.choice` calls a selection may make, in source order. */
  datatype Picks = Picks(category: nat, bodyPart: nat, exercise: nat)

  /** `(name, link)` of the chosen record, or `(None, None)`. */
  datatype Selection = Found(name: string, link: string) | Miss

  /** The (category, body part) pair the branch at the top of select_exercise settles on. */
  datatype Resolved = Resolved(category: Option<string>, bodyPart: Option<string>)

  function Pick<T>(xs: seq<T>, p: nat): (x: T)
    requires |xs| > 0
    ensures x in xs
  {
    xs[p % |xs|]
  }

  /** Python truthiness of an optional string: neither None nor "". */
  predicate Given(q: Option<string>)
  {
    q.Some? && q.value != ""
  }

  /** Category `bank[i]` has body part `b`. */
  predicate HasPart(bank: Bank, i: int, b: string)
    requires 0 <= i < |bank|
  {
    b in PartKeys(bank[i].parts)
  }

  /** The categories, in key order, that contain body part `b` (`valid_categories`). */
  function CategoriesWith(bank: Bank, b: string): (r: seq<string>)
    ensures forall k :: k in r <==> exists i :: 0 <= i < |bank| && bank[i].key == k && HasPart(bank, i, b)
  {
    if bank == [] then []
    else
      var rest := CategoriesWith(bank[1..], b);
      assert forall i :: 1 <= i < |bank| ==> bank[i] == bank[1..][i - 1];
      if HasPart(bank, 0, b) then [bank[0].key] + rest else rest
  }

  /**
   * The `random.choice` calls made before the `try` raise on an empty list
   * (lines 19-20, 32), and the lookup at line 32 raises KeyError for an
   * unknown category. The source does not catch these.
   */
  predicate Raises(bank: Bank, category: Option<string>, bodyPart: Option<string>, picks: Picks)
  {
    if !Given(category) && !Given(bodyPart) then
      |bank| == 0 || |bank[picks.category % |bank|].parts| == 0
    else if !Given(category) then
      false
    else if !Given(bodyPart) then
      match IndexOf(CategoryKeys(bank), category.value)
      case None => true
      case Some(i) => |bank[i].parts| == 0
    else
      false
  }

  /** The three-way branch of select_exercise, lines 18-32. */
  function Resolve(bank: Bank, category: Option<string>, bodyPart: Option<string>, picks: Picks): (r: Resolved)
    requires !Raises(bank, category, bodyPart, picks)
    ensures Given(category) ==> r.category == category
    ensures Given(bodyPart) ==> r.bodyPart == bodyPart
    ensures !Given(bodyPart) ==>
              r.category.Some? && r.bodyPart.Some? &&
              exists i :: 0 <= i < |bank| && bank[i].key == r.category.value && r.bodyPart.value in PartKeys(bank[i].parts)
    ensures !Given(category) && Given(bodyPart) ==>
              if CategoriesWith(bank, bodyPart.value) == [] then r.category == category
              else r.category.Some? && r.category.value in CategoriesWith(bank, bodyPart.value)
  {
    if !Given(category) && !Given(bodyPart) then
      var c := bank[picks.category % |bank|];
      Resolved(Some(c.key), Some(Pick(PartKeys(c.parts), picks.bodyPart)))
    else if !Given(category) then
      var valid := CategoriesWith(bank, bodyPart.value);
      if valid != [] then Resolved(Some(Pick(valid, picks.category)), bodyPart)
      else Resolved(category, bodyPart)
    else if !Given(bodyPart) then
      var i := IndexOf(CategoryKeys(bank), category.value).value;
      Resolved(category, Some(Pick(PartKeys(bank[i].parts), picks.bodyPart)))
    else
      Resolved(category, bodyPart)
  }

  /** The records under the resolved keys, or None where the lookup raises KeyError. */
  function ResolvedRecords(bank: Bank, res: Resolved): Option<seq<Record>>
  {
    if res.category.None? || res.bodyPart.None? then None
    else Lookup(bank, res.category.value, res.bodyPart.value)
  }

  /** Some record of `recs` has exactly this name and link. */
  predicate HasRecord(recs: seq<Record>, name: string, link: string)
  {
    exists j :: 0 <= j < |recs| && recs[j].name == Present(name) && recs[j].link == Present(link)
  }

  /** Every record has both a "name" and a "link" key. */
  predicate AllComplete(recs: seq<Record>)
  {
    forall j :: 0 <= j < |recs| ==> recs[j].name.Present? && recs[j].link.Present?
  }

  /** The guarded lookup of lines 34-39: every KeyError or IndexError becomes `Miss`. */
  function Fetch(recs: Option<seq<Record>>, p: nat): (r: Selection)
    ensures r.Found? ==> recs.Some? && HasRecord(recs.value, r.name, r.link)
    ensures recs.None? || recs.value == [] ==> r.Miss?
    ensures recs.Some? && AllComplete(recs.value) ==> (r.Miss? <==> recs.value == [])
  {
    match recs
    case None => Miss
    case Some(xs) =>
      if xs == [] then Miss
      else
        var e := Pick(xs, p);
        if e.name.Present? && e.link.Present? then Found(e.name.value, e.link.value) else Miss
  }

  /** select_exercise(category, body_part) with its random choices fixed by `picks`. */
  function Select(bank: Bank, category: Option<string>, bodyPart: Option<string>, picks: Picks): (r: Selection)
    requires !Raises(bank, category, bodyPart, picks)
    ensures r.Found? ==>
              var recs := ResolvedRecords(bank, Resolve(bank, category, bodyPart, picks));
              recs.Some? && HasRecord(recs.value, r.name, r.link)
  {
    Fetch(ResolvedRecords(bank, Resolve(bank, category, bodyPart, picks)), picks.exercise)
  }

  /** With both fields given, a found exercise comes from exactly `bank[category][body_part]`. */
  lemma SelectBothGiven(bank: Bank, category: Option<string>, bodyPart: Option<string>, picks: Picks)
    requires Given(category) && Given(bodyPart)
    ensures !Raises(bank, category, bodyPart, picks)
    ensures var r := Select(bank, category, bodyPart, picks);
            var recs := Lookup(bank, category.value, bodyPart.value);
            && (r.Found? ==> recs.Some? && HasRecord(recs.value, r.name, r.link))
            && (recs.None? || recs.value == [] ==> r.Miss?)
            && (recs.Some? && AllComplete(recs.value) && recs.value != [] ==> r.Found?)
  {
  }

  /**
   * With only the body part given, a found exercise comes from a category that
   * has that body part; when no category has it, the result is `(None, None)`.
   */
  lemma SelectOnlyBodyPart(bank: Bank, category: Option<string>, bodyPart: Option<string>, picks: Picks)
    requires !Given(category) && Given(bodyPart)
    ensures !Raises(bank, category, bodyPart, picks)
    ensures var r := Select(bank, category, bodyPart, picks);
            var res := Resolve(bank, category, bodyPart, picks);
            && (r.Found? ==>
                  (res.category.Some? &&
                   exists i :: 0 <= i < |bank| && bank[i].key == res.category.value && HasPart(bank, i, bodyPart.value)))
            && (CategoriesWith(bank, bodyPart.value) == [] ==> r.Miss?)
  {
  }

  /** With only the category given, the body part is one of that category's keys. */
  lemma SelectOnlyCategory(bank: Bank, category: Option<string>, bodyPart: Option<string>, picks: Picks)
    requires Given(category) && !Given(bodyPart)
    requires !Raises(bank, category, bodyPart, picks)
    ensures var res := Resolve(bank, category, bodyPart, picks);
            res.category == category && res.bodyPart.Some? &&
            exists i :: 0 <= i < |bank| && bank[i].key == category.value && res.bodyPart.value in PartKeys(bank[i].parts)
  {
  }

  /** An empty string is treated exactly like None, for the category and for the body part. */
  lemma EmptyStringIsAbsent(bank: Bank, category: Option<string>, bodyPart: Option<string>, picks: Picks)
    ensures Raises(bank, Some(""), bodyPart, picks) == Raises(bank, None, bodyPart, picks)
    ensures Raises(bank, category, Some(""), picks) == Raises(bank, category, None, picks)
    ensures !Raises(bank, None, bodyPart, picks) ==>
              Select(bank, Some(""), bodyPart, picks) == Select(bank, None, bodyPart, picks)
    ensures !Raises(bank, category, None, picks) ==>
              Select(bank, category, Some(""), picks) == Select(bank, category, None, picks)
  {
    if !Raises(bank, None, bodyPart, picks) && Given(bodyPart) && CategoriesWith(bank, bodyPart.value) == [] {
      SelectOnlyBodyPart(bank, Some(""), bodyPart, picks);
      SelectOnlyBodyPart(bank, None, bodyPart, picks);
    }
  }

  /** `manual_entry(name)`: the name as typed, with no link; the bank is not consulted. */
  function ManualEntry(name: string): (r: (string, Option<string>))
    ensures r.0 == name && r.1 == None
  {
    (name, None)
  }
}
