/**
 * The "Create Exercise Slots" and "Preview Workout" handlers of the two
 * workout builders: `WorkoutGenerator` in workout_generator_tk.py and the
 * older builder class of workout_generator.py.
 *
 * A slot is the text of its three widgets: the manual-name entry, the type
 * box and the body-part box. A slot names an exercise by hand, asks the
 * selector for a random one, or is left blank. `int(...)` on a text field is
 * replaced by an `Option<int>` (None where int() raises ValueError), and the
 * `random.choice` calls of slot `i` by `picks[i]`.
 */
module Builder {
  import opened Common
  import opened ExerciseBank
  import opened Selector
  import opened Removal
  import opened ExerciseSelection

  /** The grey hint a manual-name entry starts with. */
  const Placeholder: string := "Enter custom exercise (optional)"

  /** The ASCII characters `str.strip()` removes: exactly those `str.isspace()` accepts. */
  predicate IsSpace(c: char)
  {
    c == ' ' || '\t' <= c <= '\r' || '\U{1C}' <= c <= '\U{1F}'
  }

  predicate AllSpace(s: string)
  {
    forall k :: 0 <= k < |s| ==> IsSpace(s[k])
  }

  /** How many whitespace characters open `s`. */
  function LeadingSpaces(s: string): (n: nat)
    ensures n <= |s|
  {
    if s == [] || !IsSpace(s[0]) then 0 else 1 + LeadingSpaces(s[1..])
  }

  /** The opening run is all whitespace and ends at the first other character. */
  lemma {:induction false} LeadingSpacesSpec(s: string)
    ensures forall k :: 0 <= k < LeadingSpaces(s) ==> IsSpace(s[k])
    ensures LeadingSpaces(s) < |s| ==> !IsSpace(s[LeadingSpaces(s)])
    decreases |s|
  {
    if s != [] && IsSpace(s[0]) {
      var t := s[1..];
      LeadingSpacesSpec(t);
      forall k | 0 < k < LeadingSpaces(s) ensures IsSpace(s[k]) {
        assert s[k] == t[k - 1];
      }
      if LeadingSpaces(s) < |s| {
        assert s[LeadingSpaces(s)] == t[LeadingSpaces(t)];
      }
    }
  }

  /** How many whitespace characters close `s`. */
  function TrailingSpaces(s: string): (n: nat)
    ensures n <= |s|
  {
    if s == [] || !IsSpace(s[|s| - 1]) then 0 else 1 + TrailingSpaces(s[..|s| - 1])
  }

  /** The closing run is all whitespace and starts after the last other character. */
  lemma {:induction false} TrailingSpacesSpec(s: string)
    ensures forall k :: |s| - TrailingSpaces(s) <= k < |s| ==> IsSpace(s[k])
    ensures TrailingSpaces(s) < |s| ==> !IsSpace(s[|s| - TrailingSpaces(s) - 1])
    decreases |s|
  {
    if s != [] && IsSpace(s[|s| - 1]) {
      var t := s[..|s| - 1];
      TrailingSpacesSpec(t);
      forall k | |s| - TrailingSpaces(s) <= k < |s| - 1 ensures IsSpace(s[k]) {
        assert s[k] == t[k];
      }
      if TrailingSpaces(s) < |s| {
        assert s[|s| - TrailingSpaces(s) - 1] == t[|t| - TrailingSpaces(t) - 1];
      }
    }
  }

  /** `s.strip()`: `s` without the whitespace at either end. */
  function Strip(s: string): string
  {
    var rest := s[LeadingSpaces(s)..];
    rest[..|rest| - TrailingSpaces(rest)]
  }

  /** Strip yields nothing exactly for all-whitespace text, and otherwise text with no whitespace at either end. */
  lemma StripSpec(s: string)
    ensures Strip(s) == [] <==> AllSpace(s)
    ensures Strip(s) != [] ==> !IsSpace(Strip(s)[0]) && !IsSpace(Strip(s)[|Strip(s)| - 1])
  {
    var rest := s[LeadingSpaces(s)..];
    LeadingSpacesSpec(s);
    TrailingSpacesSpec(rest);
    if rest != [] {
      assert rest[0] == s[LeadingSpaces(s)];
    } else {
      assert AllSpace(s);
    }
  }

  /**
   * Strip returns exactly the text inside whitespace padding: together with
   * StripSpec this pins the result down for every input.
   */
  lemma StripPadded(pre: string, mid: string, post: string)
    requires AllSpace(pre) && AllSpace(post)
    requires mid != [] ==> !IsSpace(mid[0]) && !IsSpace(mid[|mid| - 1])
    ensures Strip(pre + mid + post) == mid
  {
    var s := pre + mid + post;
    if mid == [] {
      assert AllSpace(s) by {
        forall k | 0 <= k < |s| ensures IsSpace(s[k]) {
          if k < |pre| { assert s[k] == pre[k]; } else { assert s[k] == post[k - |pre|]; }
        }
      }
      StripSpec(s);
    } else {
      LeadingSpacesSpec(s);
      assert s[|pre|] == mid[0];
      assert LeadingSpaces(s) == |pre|;
      var rest := s[|pre|..];
      assert rest == mid + post;
      TrailingSpacesSpec(rest);
      assert rest[|mid| - 1] == mid[|mid| - 1];
      assert TrailingSpaces(rest) == |post|;
      assert rest[..|mid|] == mid;
    }
  }

  /** The three widgets of one exercise slot, as text (an unset box reads ""). */
  datatype Slot = Slot(manual: string, kind: string, bodyPart: string)

  /** What a slot asks for. */
  datatype Request = Manual(name: string) | Random(category: Option<string>, bodyPart: Option<string>) | Blank

  /**
   * The branch of preview_workout on one slot: a stripped manual name other
   * than the placeholder wins; otherwise the filled boxes form the query
   * (an empty box is passed as None); with nothing filled the slot is blank.
   */
  function Classify(slot: Slot): Request
  {
    var manualName := Strip(slot.manual);
    if manualName != "" && manualName != Placeholder then Manual(manualName)
    else if slot.kind != "" && slot.bodyPart != "" then Random(Some(slot.kind), Some(slot.bodyPart))
    else if slot.kind != "" then Random(Some(slot.kind), None)
    else if slot.bodyPart != "" then Random(None, Some(slot.bodyPart))
    else Blank
  }

  /**
   * A slot is manual exactly when its stripped text is neither empty nor the
   * placeholder; it is blank exactly when it is not manual and both boxes
   * are empty; a random query passes each box that is filled and None for
   * one that is not.
   */
  lemma ClassifySpec(slot: Slot)
    ensures var q := Classify(slot);
            && (q.Manual? <==> Strip(slot.manual) != "" && Strip(slot.manual) != Placeholder)
            && (q.Manual? ==> q.name == Strip(slot.manual))
            && (q.Blank? <==> !q.Manual? && slot.kind == "" && slot.bodyPart == "")
            && (q.Random? ==> q.category == (if slot.kind == "" then None else Some(slot.kind)))
            && (q.Random? ==> q.bodyPart == (if slot.bodyPart == "" then None else Some(slot.bodyPart)))
  {
  }

  /**
   * The three-way dispatch on the boxes selects exactly what one call with
   * both raw box texts would: select_exercise treats "" like None.
   */
  lemma DispatchMatchesRawQuery(bank: Bank, slot: Slot, picks: Picks)
    requires Classify(slot).Random?
    ensures var q := Classify(slot);
            && Raises(bank, q.category, q.bodyPart, picks) == Raises(bank, Some(slot.kind), Some(slot.bodyPart), picks)
            && (!Raises(bank, q.category, q.bodyPart, picks) ==>
                  Select(bank, q.category, q.bodyPart, picks) == Select(bank, Some(slot.kind), Some(slot.bodyPart), picks))
  {
    var k, b := Some(slot.kind), Some(slot.bodyPart);
    EmptyStringIsAbsent(bank, k, b, picks);
    EmptyStringIsAbsent(bank, None, b, picks);
    EmptyStringIsAbsent(bank, k, None, picks);
  }

  /** What one slot resolves to. */
  datatype SlotResult = Chosen(entry: Entry) | LeftBlank | Unmatched | Crashed

  /**
   * One slot against the current bank: a manual name becomes an entry with
   * no link, type or body part; a random query appends the selected name
   * with its link and the raw box texts, unless the selector finds no
   * (non-empty) name; an uncaught exception in select_exercise is `Crashed`.
   */
  function ResolveSlot(bank: Bank, slot: Slot, picks: Picks): SlotResult
  {
    match Classify(slot)
    case Manual(name) => Chosen(Entry(name, None, None, None))
    case Blank => LeftBlank
    case Random(category, bodyPart) =>
      if Raises(bank, category, bodyPart, picks) then Crashed
      else match Select(bank, category, bodyPart, picks)
        case Found(name, link) =>
          if name != "" then Chosen(Entry(name, Some(link), Some(slot.kind), Some(slot.bodyPart))) else Unmatched
        case Miss => Unmatched
  }

  /**
   * What a slot resolves to, case by case: the manual entry, the selected
   * record with the raw box texts, the uncaught exception, or no usable name.
   */
  lemma ResolveSlotSpec(bank: Bank, slot: Slot, picks: Picks)
    ensures var r := ResolveSlot(bank, slot, picks);
            var q := Classify(slot);
            && (r.LeftBlank? <==> q.Blank?)
            && (q.Manual? ==> r == Chosen(Entry(Strip(slot.manual), None, None, None)))
            && (r.Crashed? <==> q.Random? && Raises(bank, q.category, q.bodyPart, picks))
            && (r.Chosen? && q.Random? ==>
                  && r.entry.name != "" && r.entry.link.Some?
                  && Select(bank, q.category, q.bodyPart, picks) == Found(r.entry.name, r.entry.link.value)
                  && r.entry.kind == Some(slot.kind) && r.entry.bodyPart == Some(slot.bodyPart))
            && (r.Unmatched? ==>
                  && q.Random? && !Raises(bank, q.category, q.bodyPart, picks)
                  && match Select(bank, q.category, q.bodyPart, picks)
                     case Miss => true
                     case Found(name, _) => name == "")
  {
    ClassifySpec(slot);
  }

  /** Resolving one slot against a bank: `ResolveSlot`, or any function with the guarantees the loop relies on. */
  type Resolver = (Bank, Slot, Picks) -> SlotResult

  /** What happens to the bank once a name is appended to the list. */
  type Remover = (Bank, string) -> Bank

  /** The builder of workout_generator.py leaves the bank alone. */
  function KeepBank(bank: Bank, n: string): Bank
  {
    bank
  }

  /** Entry `e` is what slot `slot` asks for. */
  predicate Fits(slot: Slot, e: Entry)
  {
    match Classify(slot)
    case Manual(name) => e == Entry(name, None, None, None)
    case Random(_, _) =>
      e.name != "" && e.link.Some? && e.kind == Some(slot.kind) && e.bodyPart == Some(slot.bodyPart)
    case Blank => false
  }

  /**
   * What the slot loop relies on: a chosen entry fits its slot, exactly a
   * blank slot is left blank, and only a random query fails.
   */
  ghost predicate Resolves(resolve: Resolver)
  {
    forall b, s, p ::
      && (resolve(b, s, p).Chosen? ==> Fits(s, resolve(b, s, p).entry))
      && (resolve(b, s, p).LeftBlank? <==> Classify(s).Blank?)
      && (resolve(b, s, p).Unmatched? || resolve(b, s, p).Crashed? ==> Classify(s).Random?)
  }

  /** The entry a slot yields fits the slot; a slot fails only by being blank or by its query. */
  lemma ResolveSlotFits()
    ensures Resolves(ResolveSlot)
  {
  }

  /** A random query never yields a name the bank does not hold. */
  ghost predicate SkipsAbsent(resolve: Resolver)
  {
    forall b, s, p, n :: Absent(b, n) && Classify(s).Random? && resolve(b, s, p).Chosen? ==>
      resolve(b, s, p).entry.name != n
  }

  /** select_exercise only returns names of records in the bank. */
  lemma ResolveSlotSkipsAbsent()
    ensures SkipsAbsent(ResolveSlot)
  {
    forall b, s, p, n | Absent(b, n) && Classify(s).Random? && ResolveSlot(b, s, p).Chosen?
      ensures ResolveSlot(b, s, p).entry.name != n
    {
      var q := Classify(s);
      ResolveSlotSpec(b, s, p);
      SelectAbsent(b, n, q.category, q.bodyPart, p);
    }
  }

  /** No list of the bank holds a name twice, and no name of `added` is left in it. */
  ghost predicate Cleared(bank: Bank, added: seq<Entry>)
  {
    UniqueNames(bank) && forall k :: 0 <= k < |added| ==> Absent(bank, added[k].name)
  }

  /** Removing each appended name keeps the bank cleared of the list. */
  ghost predicate ClearsNames(remove: Remover)
  {
    forall b, added: seq<Entry>, e: Entry :: Cleared(b, added) ==> Cleared(remove(b, e.name), added + [e])
  }

  /** remove_exercise clears the bank of every name appended so far. */
  lemma RemoveFromBankClears()
    ensures ClearsNames(RemoveFromBank)
  {
    forall b, added: seq<Entry>, e: Entry | Cleared(b, added)
      ensures Cleared(RemoveFromBank(b, e.name), added + [e])
    {
      var r := RemoveFromBank(b, e.name);
      RemoveKeepsUnique(b, e.name);
      forall k | 0 <= k < |added| ensures Absent(r, added[k].name) {
        RemoveKeepsAbsent(b, e.name, added[k].name);
      }
      assert (added + [e])[|added|] == e;
    }
  }

  /** Why the slot loop stopped early, and at which slot. */
  datatype Stop = BlankSlot(slot: nat) | NoMatch(slot: nat) | SelectorRaised(slot: nat)

  /** The list, the bank and the early stop, if any, after the slot loop. */
  datatype PassResult = PassResult(added: seq<Entry>, bank: Bank, stop: Option<Stop>)

  /**
   * The slot loop of preview_workout from slot `i` on, with `added` the list
   * and `bank` the selector's bank so far. With `keep` (the list was not
   * empty on entry) slots are still resolved but nothing is appended and a
   * missing exercise is no error; otherwise every chosen entry is appended
   * and `remove` applied to the bank with its name.
   */
  function Pass(resolve: Resolver, remove: Remover, bank: Bank, added: seq<Entry>, entries: seq<Slot>,
                picks: seq<Picks>, keep: bool, i: nat): PassResult
    requires |picks| == |entries|
    decreases |entries| - i
  {
    if i >= |entries| then PassResult(added, bank, None)
    else match resolve(bank, entries[i], picks[i])
      case LeftBlank => PassResult(added, bank, Some(BlankSlot(i)))
      case Crashed => PassResult(added, bank, Some(SelectorRaised(i)))
      case Unmatched =>
        if keep then Pass(resolve, remove, bank, added, entries, picks, keep, i + 1)
        else PassResult(added, bank, Some(NoMatch(i)))
      case Chosen(e) =>
        if keep then Pass(resolve, remove, bank, added, entries, picks, keep, i + 1)
        else Pass(resolve, remove, remove(bank, e.name), added + [e], entries, picks, keep, i + 1)
  }

  /**
   * Once the list is non-empty the loop changes neither the list nor the
   * bank, whatever the slots now say; only a blank slot or an exception
   * still stops it.
   */
  lemma {:induction false} PassKeepsList(resolve: Resolver, remove: Remover, bank: Bank, added: seq<Entry>,
                                         entries: seq<Slot>, picks: seq<Picks>, i: nat)
    requires |picks| == |entries|
    ensures var p := Pass(resolve, remove, bank, added, entries, picks, true, i);
            && p.added == added && p.bank == bank
            && (p.stop.Some? ==> !p.stop.value.NoMatch?)
    decreases |entries| - i
  {
    if i < |entries| {
      PassKeepsList(resolve, remove, bank, added, entries, picks, i + 1);
    }
  }

  /** Without removal the bank is left as it was. */
  lemma {:induction false} PassKeepsBank(resolve: Resolver, bank: Bank, added: seq<Entry>, entries: seq<Slot>,
                                         picks: seq<Picks>, keep: bool, i: nat)
    requires |picks| == |entries|
    ensures Pass(resolve, KeepBank, bank, added, entries, picks, keep, i).bank == bank
    decreases |entries| - i
  {
    if i < |entries| {
      match resolve(bank, entries[i], picks[i])
      case Chosen(e) =>
        if keep {
          PassKeepsBank(resolve, bank, added, entries, picks, keep, i + 1);
        } else {
          PassKeepsBank(resolve, bank, added + [e], entries, picks, keep, i + 1);
        }
      case _ =>
        PassKeepsBank(resolve, bank, added, entries, picks, keep, i + 1);
    }
  }

  /**
   * Building a new list the loop appends one entry per slot until it stops:
   * it either fills every slot, or stops at the slot after the last entry,
   * keeping the entries before it.
   */
  lemma {:induction false} PassShape(resolve: Resolver, remove: Remover, bank: Bank, added: seq<Entry>,
                                     entries: seq<Slot>, picks: seq<Picks>, i: nat)
    requires |picks| == |entries| && |added| == i <= |entries|
    ensures var p := Pass(resolve, remove, bank, added, entries, picks, false, i);
            && i <= |p.added| <= |entries|
            && p.added[..i] == added
            && (p.stop.None? <==> |p.added| == |entries|)
            && (p.stop.Some? ==> p.stop.value.slot == |p.added|)
    decreases |entries| - i
  {
    if i < |entries| {
      match resolve(bank, entries[i], picks[i])
      case Chosen(e) =>
        PassShape(resolve, remove, remove(bank, e.name), added + [e], entries, picks, i + 1);
        var p := Pass(resolve, remove, remove(bank, e.name), added + [e], entries, picks, false, i + 1);
        assert p.added[..i + 1] == added + [e];
        assert p.added[..i] == (added + [e])[..i];
      case _ =>
    }
  }

  /** The stop names a slot that is blank, or a random query that failed. */
  predicate StopFits(entries: seq<Slot>, stop: Stop)
  {
    stop.slot < |entries| &&
    match stop
    case BlankSlot(k) => Classify(entries[k]).Blank?
    case NoMatch(k) => Classify(entries[k]).Random?
    case SelectorRaised(k) => Classify(entries[k]).Random?
  }

  /**
   * Building a new list, entry `k` comes from slot `k`, and the loop stops
   * only at a blank slot or a random query that failed.
   */
  lemma {:induction false} PassFits(resolve: Resolver, remove: Remover, bank: Bank, added: seq<Entry>,
                                    entries: seq<Slot>, picks: seq<Picks>, i: nat)
    requires Resolves(resolve)
    requires |picks| == |entries| && |added| == i <= |entries|
    ensures var p := Pass(resolve, remove, bank, added, entries, picks, false, i);
            && |p.added| <= |entries|
            && (p.stop.Some? ==> StopFits(entries, p.stop.value))
            && forall k :: i <= k < |p.added| ==> Fits(entries[k], p.added[k])
    decreases |entries| - i
  {
    PassShape(resolve, remove, bank, added, entries, picks, i);
    if i < |entries| {
      var r := resolve(bank, entries[i], picks[i]);
      assert r.Chosen? ==> Fits(entries[i], r.entry);
      assert r.LeftBlank? <==> Classify(entries[i]).Blank?;
      assert r.Unmatched? || r.Crashed? ==> Classify(entries[i]).Random?;
      match r
      case Chosen(e) =>
        PassFits(resolve, remove, remove(bank, e.name), added + [e], entries, picks, i + 1);
        PassShape(resolve, remove, remove(bank, e.name), added + [e], entries, picks, i + 1);
        var p := Pass(resolve, remove, remove(bank, e.name), added + [e], entries, picks, false, i + 1);
        assert p.added[..i + 1][i] == p.added[i];
      case _ =>
    }
  }

  /** A remover that clears each appended name keeps the bank cleared of the whole list. */
  lemma {:induction false} PassCleared(resolve: Resolver, remove: Remover, bank: Bank, added: seq<Entry>,
                                       entries: seq<Slot>, picks: seq<Picks>, keep: bool, i: nat)
    requires ClearsNames(remove)
    requires |picks| == |entries| && Cleared(bank, added)
    ensures var p := Pass(resolve, remove, bank, added, entries, picks, keep, i);
            Cleared(p.bank, p.added)
    decreases |entries| - i
  {
    if i < |entries| {
      match resolve(bank, entries[i], picks[i])
      case Chosen(e) =>
        if keep {
          PassCleared(resolve, remove, bank, added, entries, picks, keep, i + 1);
        } else {
          PassCleared(resolve, remove, remove(bank, e.name), added + [e], entries, picks, keep, i + 1);
        }
      case _ =>
        PassCleared(resolve, remove, bank, added, entries, picks, keep, i + 1);
    }
  }

  /**
   * With the bank cleared of every appended name, no random slot returns a
   * name chosen by an earlier slot of the same pass.
   */
  lemma {:induction false} PassNoRepeats(resolve: Resolver, remove: Remover, bank: Bank, added: seq<Entry>,
                                         entries: seq<Slot>, picks: seq<Picks>, i: nat)
    requires SkipsAbsent(resolve) && ClearsNames(remove)
    requires |picks| == |entries| && |added| == i <= |entries| && Cleared(bank, added)
    ensures var p := Pass(resolve, remove, bank, added, entries, picks, false, i);
            forall j, k :: 0 <= j < k < |p.added| && i <= k < |entries| && Classify(entries[k]).Random? ==>
              p.added[j].name != p.added[k].name
    decreases |entries| - i
  {
    if i < |entries| {
      match resolve(bank, entries[i], picks[i])
      case Chosen(e) =>
        if Classify(entries[i]).Random? {
          forall k | 0 <= k < |added| ensures added[k].name != e.name {
            assert Absent(bank, added[k].name);
          }
        }
        assert Cleared(remove(bank, e.name), added + [e]);
        PassNoRepeats(resolve, remove, remove(bank, e.name), added + [e], entries, picks, i + 1);
        PassShape(resolve, remove, remove(bank, e.name), added + [e], entries, picks, i + 1);
        var p := Pass(resolve, remove, remove(bank, e.name), added + [e], entries, picks, false, i + 1);
        forall j, k | 0 <= j < k < |p.added| && i <= k < |entries| && Classify(entries[k]).Random?
          ensures p.added[j].name != p.added[k].name
        {
          if k == i {
            assert p.added[k] == p.added[..i + 1][k] == e;
            assert p.added[j] == p.added[..i + 1][j] == added[j];
          }
        }
      case _ =>
    }
  }

  /**
   * preview_workout of workout_generator_tk.py on a fresh list: with no
   * list of the bank holding a name twice, every chosen name has left the
   * bank afterwards, and no random slot repeats a name chosen before it.
   */
  lemma TkPassNoRepeats(bank: Bank, entries: seq<Slot>, picks: seq<Picks>)
    requires |picks| == |entries| && UniqueNames(bank)
    ensures var p := Pass(ResolveSlot, RemoveFromBank, bank, [], entries, picks, false, 0);
            && Cleared(p.bank, p.added)
            && forall j, k :: 0 <= j < k < |p.added| && k < |entries| && Classify(entries[k]).Random? ==>
                 p.added[j].name != p.added[k].name
  {
    RemoveFromBankClears();
    ResolveSlotSkipsAbsent();
    PassCleared(ResolveSlot, RemoveFromBank, bank, [], entries, picks, false, 0);
    PassNoRepeats(ResolveSlot, RemoveFromBank, bank, [], entries, picks, 0);
  }

  /** A bank holding one exercise, and a slot asking for its type and body part. */
  const SquatRecord: Record := Record(Present("Squat"), Present("squat.png"), map[])
  const SquatBank: Bank := [Category("strength", [Part("legs", [SquatRecord])])]
  const EmptyLegsBank: Bank := [Category("strength", [Part("legs", [])])]
  const LegsSlot: Slot := Slot(Placeholder, "strength", "legs")
  const SquatEntry: Entry := Entry("Squat", Some("squat.png"), Some("strength"), Some("legs"))

  /** The placeholder text is no name. */
  lemma PlaceholderIsNoName()
    ensures Strip(Placeholder) == Placeholder
  {
    StripPadded([], Placeholder, []);
    assert [] + Placeholder + [] == Placeholder;
  }

  /** The slot asks the selector for a strength exercise for the legs, which is the squat. */
  lemma SquatChosen()
    ensures ResolveSlot(SquatBank, LegsSlot, Picks(0, 0, 0)) == Chosen(SquatEntry)
  {
    PlaceholderIsNoName();
    assert Classify(LegsSlot) == Random(Some("strength"), Some("legs"));
    assert CategoryKeys(SquatBank) == ["strength"];
    assert PartKeys(SquatBank[0].parts) == ["legs"];
  }

  /** Removing the squat leaves its list empty and every key in place. */
  lemma SquatRemoved()
    ensures RemoveFromBank(SquatBank, "Squat") == EmptyLegsBank
  {
    assert SquatRecord in [SquatRecord];
    assert RemoveFirst([SquatRecord], SquatRecord) == [];
    assert Scan([SquatRecord], 0, "Squat") == Scan([], 1, "Squat");
    assert RemoveNamed([SquatRecord], "Squat") == [];
    var after := RemoveFromBank(SquatBank, "Squat");
    assert after[0] == RemoveFromCategory(SquatBank[0], "Squat");
    assert after[0].parts == [Part("legs", [])];
    assert after == [Category("strength", [Part("legs", [])])];
  }

  /** Once the squat is gone the same query finds nothing. */
  lemma SquatGone()
    ensures ResolveSlot(EmptyLegsBank, LegsSlot, Picks(0, 0, 0)) == Unmatched
  {
    PlaceholderIsNoName();
    assert Classify(LegsSlot) == Random(Some("strength"), Some("legs"));
    assert CategoryKeys(EmptyLegsBank) == ["strength"];
    assert PartKeys(EmptyLegsBank[0].parts) == ["legs"];
  }


  /**
   * The builder of workout_generator.py never removes, so two random slots
   * with the same query both return the same exercise.
   */
  lemma LegacyRepeatsPick()
    ensures Pass(ResolveSlot, KeepBank, SquatBank, [], [LegsSlot, LegsSlot], [Picks(0, 0, 0), Picks(0, 0, 0)], false, 0)
            == PassResult([SquatEntry, SquatEntry], SquatBank, None)
  {
    var slots, picks := [LegsSlot, LegsSlot], [Picks(0, 0, 0), Picks(0, 0, 0)];
    SquatChosen();
    assert [] + [SquatEntry] == [SquatEntry];
    assert [SquatEntry] + [SquatEntry] == [SquatEntry, SquatEntry];
    assert Pass(ResolveSlot, KeepBank, SquatBank, [], slots, picks, false, 0)
           == Pass(ResolveSlot, KeepBank, SquatBank, [SquatEntry], slots, picks, false, 1);
    assert Pass(ResolveSlot, KeepBank, SquatBank, [SquatEntry], slots, picks, false, 1)
           == Pass(ResolveSlot, KeepBank, SquatBank, [SquatEntry, SquatEntry], slots, picks, false, 2);
  }

  /**
   * The Tk builder removes the first pick, so a second slot with the same
   * query finds nothing and the preview stops there.
   */
  lemma RemovalStopsRepeat()
    ensures Pass(ResolveSlot, RemoveFromBank, SquatBank, [], [LegsSlot, LegsSlot], [Picks(0, 0, 0), Picks(0, 0, 0)],
                 false, 0)
            == PassResult([SquatEntry], EmptyLegsBank, Some(NoMatch(1)))
  {
    var slots, picks := [LegsSlot, LegsSlot], [Picks(0, 0, 0), Picks(0, 0, 0)];
    SquatChosen();
    SquatRemoved();
    SquatGone();
    assert [] + [SquatEntry] == [SquatEntry];
    assert Pass(ResolveSlot, RemoveFromBank, SquatBank, [], slots, picks, false, 0)
           == Pass(ResolveSlot, RemoveFromBank, EmptyLegsBank, [SquatEntry], slots, picks, false, 1);
  }

  /** A slot as create_exercise_slots lays it out: the saved name, or the placeholder, and empty boxes. */
  function FreshSlot(exercises: seq<Entry>, i: nat): Slot
  {
    Slot(if i < |exercises| then exercises[i].name else Placeholder, "", "")
  }

  /**
   * The count check and slot layout of create_exercise_slots: no slots for a
   * count of 0 or less; otherwise `count` slots, slot `i` showing the name
   * of `exercises[i]` where there is one.
   */
  function ExerciseSlots(count: int, exercises: seq<Entry>): (r: Option<seq<Slot>>)
    ensures r.Some? <==> count > 0
    ensures r.Some? ==> |r.value| == count
    ensures r.Some? ==> forall i :: 0 <= i < count ==>
              r.value[i].kind == "" && r.value[i].bodyPart == "" &&
              r.value[i].manual == if i < |exercises| then exercises[i].name else Placeholder
  {
    if count <= 0 then None else Some(seq(count, i requires 0 <= i < count => FreshSlot(exercises, i)))
  }

  /**
   * Previewing untouched fresh slots fails at the first one: the placeholder
   * is no name and the boxes are empty.
   */
  lemma UntouchedSlotsAreBlank(remove: Remover, bank: Bank, count: int, picks: seq<Picks>)
    requires count > 0 && |picks| == count
    ensures Pass(ResolveSlot, remove, bank, [], ExerciseSlots(count, []).value, picks, false, 0).stop
            == Some(BlankSlot(0))
  {
    PlaceholderIsNoName();
    assert Classify(ExerciseSlots(count, []).value[0]).Blank?;
  }


  /** `self.timer_config`: work and rest in seconds, and the number of rounds. */
  datatype TimerConfig = TimerConfig(work: int, rest: int, rounds: int)

  datatype TimerCheck = TimerOk(config: TimerConfig) | NotNumbers | OutOfRange

  /**
   * The timer fields of preview_workout: all three must parse as integers,
   * then work > 0, rest >= 0 and rounds > 0; the values are kept as entered.
   */
  function ValidateTimer(work: Option<int>, rest: Option<int>, rounds: Option<int>): (r: TimerCheck)
    ensures r.NotNumbers? <==> work.None? || rest.None? || rounds.None?
    ensures r.TimerOk? <==> work.Some? && rest.Some? && rounds.Some? && work.value > 0 && rest.value >= 0 && rounds.value > 0
    ensures r.TimerOk? ==> r.config == TimerConfig(work.value, rest.value, rounds.value)
  {
    if work.None? || rest.None? || rounds.None? then NotNumbers
    else if work.value <= 0 || rest.value < 0 || rounds.value <= 0 then OutOfRange
    else TimerOk(TimerConfig(work.value, rest.value, rounds.value))
  }

  /** How "Preview Workout" ends. */
  datatype Outcome = Previewed(config: TimerConfig) | SlotFailed(stop: Stop) | NoExercises | TimerNotNumbers | TimerOutOfRange

  /** The checks after the slot loop, in source order: slot errors, an empty list, then the timer fields. */
  function Decide(p: PassResult, work: Option<int>, rest: Option<int>, rounds: Option<int>): (o: Outcome)
    ensures o.Previewed? <==> p.stop.None? && p.added != [] && ValidateTimer(work, rest, rounds).TimerOk?
    ensures o.Previewed? ==> o.config == ValidateTimer(work, rest, rounds).config
    ensures o.SlotFailed? <==> p.stop.Some?
  {
    if p.stop.Some? then SlotFailed(p.stop.value)
    else if p.added == [] then NoExercises
    else match ValidateTimer(work, rest, rounds)
      case TimerOk(c) => Previewed(c)
      case NotNumbers => TimerNotNumbers
      case OutOfRange => TimerOutOfRange
  }

  /**
   * A preview that fails after some slots were appended leaves that partial
   * list behind; the next preview then treats it as a loaded workout and
   * keeps it, whatever the slots say by then.
   */
  lemma RetryKeepsPartialList(resolve: Resolver, remove: Remover, bank: Bank, entries: seq<Slot>,
                              picks: seq<Picks>, entries2: seq<Slot>, picks2: seq<Picks>)
    requires |picks| == |entries| && |picks2| == |entries2|
    requires var p := Pass(resolve, remove, bank, [], entries, picks, false, 0); p.stop.Some? && p.added != []
    ensures var p := Pass(resolve, remove, bank, [], entries, picks, false, 0);
            var q := Pass(resolve, remove, p.bank, p.added, entries2, picks2, true, 0);
            && 0 < |p.added| < |entries|
            && q.added == p.added && q.bank == p.bank
  {
    var p := Pass(resolve, remove, bank, [], entries, picks, false, 0);
    PassShape(resolve, remove, bank, [], entries, picks, 0);
    PassKeepsList(resolve, remove, p.bank, p.added, entries2, picks2, 0);
  }


  /** `WorkoutGenerator` of workout_generator_tk.py: the state "Preview Workout" works on. */
  class WorkoutGenerator {
    var selector: ExerciseSelector
    var exercises: seq<Entry>
    var numExercises: int
    /** `self.timer_config`; None is the empty dictionary it starts as. */
    var timerConfig: Option<TimerConfig>

    /** `__init__`, with the bank of exercises.json handed in. */
    constructor (bank: Bank)
      ensures fresh(selector) && selector.Valid() && selector.bank == bank
      ensures exercises == [] && numExercises == 0 && timerConfig == None
    {
      selector := new ExerciseSelector(bank);
      exercises := [];
      numExercises := 0;
      timerConfig := None;
    }

    /**
     * `create_exercise_slots(num_exercise_entry, equipment_entry)`.
     * `numEntry` is None when no count entry is passed ("Back to Edit"),
     * Some(None) when its text is no integer; `equipment` is the bank of the
     * file the equipment box chooses, when that box is passed. The slots are
     * None where the handler shows an error instead.
     */
    method CreateExerciseSlots(numEntry: Option<Option<int>>, equipment: Option<Bank>)
      returns (slots: Option<seq<Slot>>)
      modifies this
      ensures exercises == old(exercises) && timerConfig == old(timerConfig)
      ensures numEntry == Some(None) ==>
                slots.None? && numExercises == old(numExercises) && selector == old(selector)
      ensures numEntry != Some(None) ==>
                && numExercises == (if numEntry.Some? then numEntry.value.value else old(numExercises))
                && (equipment.Some? ==> fresh(selector) && selector.Valid() && selector.bank == equipment.value)
                && (equipment.None? ==> selector == old(selector))
                && slots == ExerciseSlots(numExercises, exercises)
    {
      if numEntry.Some? {
        if numEntry.value.None? {
          return None;
        }
        numExercises := numEntry.value.value;
      }
      if equipment.Some? {
        selector := new ExerciseSelector(equipment.value);
      }
      slots := ExerciseSlots(numExercises, exercises);
    }

    /**
     * One turn of the slot loop of preview_workout: resolve slot `i`; unless
     * the list was loaded, append a chosen entry and remove its name from
     * the bank; or report why the loop stops at this slot.
     */
    method PreviewSlot(entries: seq<Slot>, picks: seq<Picks>, loaded: bool, i: nat) returns (stop: Option<Stop>)
      requires |picks| == |entries| && i < |entries|
      requires selector.Valid() && AllNamed(selector.bank)
      modifies this, selector
      ensures selector == old(selector) && selector.Valid() && AllNamed(selector.bank)
      ensures timerConfig == old(timerConfig) && numExercises == old(numExercises)
      ensures Pass(ResolveSlot, RemoveFromBank, old(selector.bank), old(exercises), entries, picks, loaded, i)
              == if stop.Some? then PassResult(exercises, selector.bank, stop)
                 else Pass(ResolveSlot, RemoveFromBank, selector.bank, exercises, entries, picks, loaded, i + 1)
    {
      match ResolveSlot(selector.bank, entries[i], picks[i])
      case LeftBlank =>
        stop := Some(BlankSlot(i));
      case Crashed =>
        stop := Some(SelectorRaised(i));
      case Unmatched =>
        stop := if loaded then None else Some(NoMatch(i));
      case Chosen(e) =>
        if !loaded {
          exercises := exercises + [e];
          selector.RemoveExercise(e.name);
        }
        stop := None;
    }

    /**
     * The slot loop of preview_workout: resolve every slot, appending each
     * chosen entry and removing its name from the bank, unless the list was
     * already non-empty; stop at the first slot that fails.
     */
    method PreviewSlots(entries: seq<Slot>, picks: seq<Picks>) returns (stop: Option<Stop>)
      requires |picks| == |entries|
      requires selector.Valid() && AllNamed(selector.bank)
      modifies this, selector
      ensures selector == old(selector) && selector.Valid() && AllNamed(selector.bank)
      ensures timerConfig == old(timerConfig) && numExercises == old(numExercises)
      ensures var p := Pass(ResolveSlot, RemoveFromBank, old(selector.bank), old(exercises), entries, picks,
                            |old(exercises)| != 0, 0);
              exercises == p.added && selector.bank == p.bank && stop == p.stop
    {
      var loaded := |exercises| != 0;
      ghost var bank0, added0 := selector.bank, exercises;
      var i := 0;
      while i < |entries|
        invariant 0 <= i <= |entries|
        invariant selector.Valid() && AllNamed(selector.bank)
        invariant Pass(ResolveSlot, RemoveFromBank, selector.bank, exercises, entries, picks, loaded, i)
                  == Pass(ResolveSlot, RemoveFromBank, bank0, added0, entries, picks, loaded, 0)
        invariant selector == old(selector) && timerConfig == old(timerConfig) && numExercises == old(numExercises)
      {
        stop := PreviewSlot(entries, picks, loaded, i);
        if stop.Some? {
          assert PassResult(exercises, selector.bank, stop)
                 == Pass(ResolveSlot, RemoveFromBank, bank0, added0, entries, picks, loaded, 0);
          return;
        }
        i := i + 1;
      }
      assert Pass(ResolveSlot, RemoveFromBank, selector.bank, exercises, entries, picks, loaded, i)
             == PassResult(exercises, selector.bank, None);
      stop := None;
    }

    /**
     * `preview_workout`: the slot loop, then the empty-list check and the
     * timer fields. On success the timer config is stored; on any failure
     * the list and the bank stay as far as the loop got.
     */
    method PreviewWorkout(entries: seq<Slot>, picks: seq<Picks>, work: Option<int>, rest: Option<int>,
                          rounds: Option<int>)
      returns (outcome: Outcome)
      requires |picks| == |entries|
      requires selector.Valid() && AllNamed(selector.bank)
      modifies this, selector
      ensures selector == old(selector) && selector.Valid() && AllNamed(selector.bank)
      ensures var p := Pass(ResolveSlot, RemoveFromBank, old(selector.bank), old(exercises), entries, picks,
                            |old(exercises)| != 0, 0);
              && exercises == p.added && selector.bank == p.bank
              && outcome == Decide(p, work, rest, rounds)
      ensures timerConfig == if outcome.Previewed? then Some(outcome.config) else old(timerConfig)
      ensures numExercises == old(numExercises)
    {
      var stop := PreviewSlots(entries, picks);
      if stop.Some? {
        return SlotFailed(stop.value);
      }
      if |exercises| == 0 {
        return NoExercises;
      }
      match ValidateTimer(work, rest, rounds)
      case NotNumbers =>
        outcome := TimerNotNumbers;
      case OutOfRange =>
        outcome := TimerOutOfRange;
      case TimerOk(c) =>
        timerConfig := Some(c);
        outcome := Previewed(c);
    }
  }

  /**
   * The builder class of workout_generator.py (also called `WorkoutTimerGUI`
   * there): the same slot loop, but the list is rebuilt on every preview
   * and nothing is removed from the bank.
   */
  class LegacyBuilder {
    var selector: ExerciseSelector
    var exercises: seq<Entry>
    var timerConfig: Option<TimerConfig>

    /** `__init__`, with the bank and the saved timer config handed in. */
    constructor (bank: Bank, saved: Option<TimerConfig>)
      ensures fresh(selector) && selector.Valid() && selector.bank == bank
      ensures exercises == [] && timerConfig == saved
    {
      selector := new ExerciseSelector(bank);
      exercises := [];
      timerConfig := saved;
    }

    /** One turn of the slot loop of preview_workout in workout_generator.py. */
    method PreviewSlot(entries: seq<Slot>, picks: seq<Picks>, i: nat) returns (stop: Option<Stop>)
      requires |picks| == |entries| && i < |entries|
      modifies this
      ensures selector == old(selector) && timerConfig == old(timerConfig)
      ensures Pass(ResolveSlot, KeepBank, selector.bank, old(exercises), entries, picks, false, i)
              == if stop.Some? then PassResult(exercises, selector.bank, stop)
                 else Pass(ResolveSlot, KeepBank, selector.bank, exercises, entries, picks, false, i + 1)
    {
      match ResolveSlot(selector.bank, entries[i], picks[i])
      case LeftBlank =>
        stop := Some(BlankSlot(i));
      case Crashed =>
        stop := Some(SelectorRaised(i));
      case Unmatched =>
        stop := Some(NoMatch(i));
      case Chosen(e) =>
        exercises := exercises + [e];
        stop := None;
    }

    /** The slot loop of preview_workout in workout_generator.py, on a list it has just emptied. */
    method PreviewSlots(entries: seq<Slot>, picks: seq<Picks>) returns (stop: Option<Stop>)
      requires |picks| == |entries|
      modifies this
      ensures selector == old(selector) && timerConfig == old(timerConfig)
      ensures var p := Pass(ResolveSlot, KeepBank, selector.bank, [], entries, picks, false, 0);
              exercises == p.added && stop == p.stop
    {
      exercises := [];
      var i := 0;
      while i < |entries|
        invariant 0 <= i <= |entries|
        invariant Pass(ResolveSlot, KeepBank, selector.bank, exercises, entries, picks, false, i)
                  == Pass(ResolveSlot, KeepBank, selector.bank, [], entries, picks, false, 0)
        invariant selector == old(selector) && timerConfig == old(timerConfig)
      {
        stop := PreviewSlot(entries, picks, i);
        if stop.Some? {
          assert PassResult(exercises, selector.bank, stop)
                 == Pass(ResolveSlot, KeepBank, selector.bank, [], entries, picks, false, 0);
          return;
        }
        i := i + 1;
      }
      assert Pass(ResolveSlot, KeepBank, selector.bank, exercises, entries, picks, false, i)
             == PassResult(exercises, selector.bank, None);
      stop := None;
    }

    /**
     * `preview_workout` of workout_generator.py: rebuild the list from the
     * slots, then the empty-list check and the timer fields; the timer
     * config is stored only on success.
     */
    method PreviewWorkout(entries: seq<Slot>, picks: seq<Picks>, work: Option<int>, rest: Option<int>,
                          rounds: Option<int>)
      returns (outcome: Outcome)
      requires |picks| == |entries|
      modifies this
      ensures selector == old(selector)
      ensures var p := Pass(ResolveSlot, KeepBank, selector.bank, [], entries, picks, false, 0);
              exercises == p.added && outcome == Decide(p, work, rest, rounds)
      ensures timerConfig == if outcome.Previewed? then Some(outcome.config) else old(timerConfig)
    {
      var stop := PreviewSlots(entries, picks);
      if stop.Some? {
        return SlotFailed(stop.value);
      }
      if |exercises| == 0 {
        return NoExercises;
      }
      match ValidateTimer(work, rest, rounds)
      case NotNumbers =>
        outcome := TimerNotNumbers;
      case OutOfRange =>
        outcome := TimerOutOfRange;
      case TimerOk(c) =>
        timerConfig := Some(c);
        outcome := Previewed(c);
    }
  }

  /** The count check of create_exercise_slots in workout_generator.py: its slots always start fresh. */
  function LegacyExerciseSlots(count: Option<int>): (r: Option<seq<Slot>>)
    ensures r.Some? <==> count.Some? && count.value > 0
    ensures r.Some? ==> |r.value| == count.value && forall i :: 0 <= i < |r.value| ==> r.value[i] == Slot(Placeholder, "", "")
  {
    if count.None? then None else ExerciseSlots(count.value, [])
  }
}
