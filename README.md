# Workout generator: exercise selection, slot previews and workout timers

This project models the core of the workout-timer builder in Dafny and proves properties of the model:

- **Exercise selector** (`utils/exercise_selector.py`). It resolves a query in which category and body part may each be missing, then draws one exercise from a categorised bank. It also removes an exercise from the bank so it is not offered again, and resets the bank.
- **Slot previews** (`preview_workout` in `workout_generator_tk.py` and in the older `workout_generator.py`). Each exercise slot is typed by hand, drawn at random or left blank. Each slot becomes a workout entry. Then the timer fields are validated.
- **Blocking timer** (`utils/timer.py`). It counts down every work and rest phase and reports progress through a callback.
- **Tk timer** (`run_timer_with_gui` in `utils/workout_timer.py`, and its older copy in `workout_generator.py`). It chains `update_timer`, `start_work`, `start_rest` and `next_exercise` through `frame.after`, with pause and resume.

Modules:

| module | file | models |
|---|---|---|
| `Common` | common.dfy | `Option`, and a workout entry `{"name", "link", "type", "body_part"}` |
| `ExerciseBank` | bank.dfy | the bank as ordered association lists: category → body part → records; dictionary lookup |
| `Selector` | selector.dfy | `select_exercise` and `manual_entry` |
| `Removal` | removal.dfy | the scan of one list in `remove_exercise`, which removes records while iterating over the list |
| `ExerciseSelection` | exercise_selector.dfy | `remove_exercise` over the whole bank; class `ExerciseSelector` |
| `Phases` | schedule.dfy | the order of work and rest phases over rounds; `total_steps` |
| `BlockingTimer` | blocking_timer.dfy | `countdown_timer_with_progress` and `workout_timer_with_progress` |
| `TkTimer` | tk_timer.dfy | `run_timer_with_gui` as class `WorkoutRun`, for both copies |
| `Builder` | builder.dfy | `str.strip`, slot classification, the slot loop, timer-field validation; classes `WorkoutGenerator` (Tk) and `LegacyBuilder` (older) |

## How the model stands in for the program

- **Random choices.** Each call `random.choice(xs)` is replaced by an index argument. The element picked is `xs[p % |xs|]`, so any element can be chosen. Nothing is claimed about the distribution.
- **Exceptions.** An exception the source does not catch becomes an explicit outcome rather than a precondition:
  - `select_exercise` raising on an empty list or an unknown category is `Selector.Raises`.
  - A slot stopped by that exception is `SelectorRaised`.
  - A timer run stopped by `ZeroDivisionError` has status `Crashed`.
  - Resuming the older timer with nothing stored returns `raised`.
- **Callbacks.** The Tk closures become methods of one run object:
  - the update that `frame.after` will fire is the field `scheduled`, and firing it is `Tick`;
  - the update stored by a pause is `pauseEvent`;
  - the labels shown are recorded as the sequence `displayed` of `update_timer` calls.
- **Timer contract.** The run keeps the invariant `Valid()`. While running, the phases begun are the plan up to the current phase. Exactly one update is pending, and it is the next one. Every update shown is the one the plan predicts.

Source behaviour that differs from what the code's comments and messages suggest. The model follows the code in every case:

- **Removal skips records.** `remove_exercise` calls `list.remove` while iterating over that same list, so the record after each removed one is skipped.
  - Two adjacent records with the same name leave one behind (`Removal.AdjacentDuplicateSurvives`).
  - A later selection can then return the "removed" name (`ExerciseSelection.SelectAfterRemoveCanReturnName`).
  - Without adjacent duplicates, every record with the name goes (`Removal.RemoveNamedSpec`).
- **Selection can raise.** `select_exercise` raises when the bank or the chosen category is empty, or when the category given alone is unknown. Only the final lookup is guarded.
- **Zero-length phases crash the Tk timer.** `update_timer` divides by the phase length, and `start_rest` runs even when the rest is 0. So a workout with a rest of 0 stops with `ZeroDivisionError` at its first rest and never completes (`TkTimer.ZeroLengthNeverCompletes`). The blocking timer skips zero rests.
- **The older Tk copy numbers rounds from 0** and runs rounds 0 to `rounds - 1`. Its plan is the newer plan with every round lowered by one (`TkTimer.LegacyPlanIsShifted`).
- **A failed preview leaves a partial list.** A preview that fails after some slots have been appended keeps those entries in `self.exercises`. The next preview treats them as a loaded workout and keeps them whatever the slots now say (`Builder.RetryKeepsPartialList`).
- **The older builder can repeat a pick.** It never removes picked exercises from the bank, so two random slots can yield the same exercise (`Builder.LegacyRepeatsPick`). The Tk builder stops instead (`Builder.RemovalStopsRepeat`), and, when no list of the bank holds a name twice, never repeats a random pick (`Builder.TkPassNoRepeats`).

## Model

| member | source | states |
|---|---|---|
| ExerciseBank.IndexOf | utils/exercise_selector.py:35 | dictionary lookup finds the first position holding the key, none earlier holds it, and the key is missing exactly when no position holds it |
| ExerciseBank.Lookup | utils/exercise_selector.py:35 | `bank[c][b]` yields the records stored under category c and body part b; it raises KeyError only when c is missing or c has no body part b |
| Selector.Pick | utils/exercise_selector.py:36 | `random.choice` returns an element of the list |
| Selector.CategoriesWith | utils/exercise_selector.py:23-26 | `valid_categories` holds exactly the categories that have the given body part |
| Selector.Resolve | utils/exercise_selector.py:18-32 | a given field is kept; with no body part given, both keys end up set and name a category having that body part; with only a body part, the category is one that has it, or stays unset when none does |
| Selector.Fetch | utils/exercise_selector.py:34-39 | a found (name, link) is a record of the looked-up list; a missing key or an empty list gives (None, None); over complete records, the result is (None, None) exactly for an empty list |
| Selector.Select | utils/exercise_selector.py:15-39 | a found exercise is a record stored under the resolved category and body part |
| Selector.SelectBothGiven | utils/exercise_selector.py:34-39 | with both fields given nothing raises; a found exercise comes from `bank[category][body_part]`; a non-empty list of complete records always yields one |
| Selector.SelectOnlyBodyPart | utils/exercise_selector.py:21-28 | with only the body part given nothing raises; a found exercise comes from a category having that body part; when no category has it the result is (None, None) |
| Selector.SelectOnlyCategory | utils/exercise_selector.py:29-32 | with only the category given, the body part drawn is a key of that category |
| Selector.EmptyStringIsAbsent | utils/exercise_selector.py:18-32 | an empty string raises and selects exactly as None does, for either field |
| Selector.ManualEntry | utils/exercise_selector.py:41-43 | returns the name as typed and no link |
| Removal.FirstIndex | utils/exercise_selector.py:56 | `list.remove` deletes at the first position holding an equal record |
| Removal.RemoveFirst | utils/exercise_selector.py:56 | `list.remove` deletes the first record equal to the argument: the records before it stay in place, those after it move down by one, and one copy of the record is gone |
| Removal.ScanKeepsOthers | utils/exercise_selector.py:54-56 | the scan keeps every record with another name, in order |
| Removal.ScanShrinks | utils/exercise_selector.py:54-56 | the scan only deletes records |
| Removal.ScanCount | utils/exercise_selector.py:54-56 | as many records with the name are left as the scan skipped |
| Removal.SkippedIffAdjacent | utils/exercise_selector.py:54-56 | the scan skips a matching record exactly when two matching records are adjacent |
| Removal.RemoveNamedSpec | utils/exercise_selector.py:54-56 | one list after `remove_exercise`: others kept in order, nothing added, as many matches left as were skipped, and none left (the list is then exactly the others) if and only if no two matches were adjacent |
| Removal.ScanAbsentIsNoop | utils/exercise_selector.py:54-56 | a name no record has leaves the list unchanged |
| Removal.OthersDistinct | utils/exercise_selector.py:54-56 | the records kept all come from the list, and distinct names stay distinct |
| Removal.AdjacentDuplicateSurvives | utils/exercise_selector.py:54-56 | of two adjacent distinct records with the name, the second survives |
| ExerciseSelection.RemoveFromBank | utils/exercise_selector.py:49-56 | removal keeps every category and body-part key, in order |
| ExerciseSelection.RemoveFromBankSpec | utils/exercise_selector.py:49-56 | keys kept; every list keeps its records with other names, in order; records stay named; without adjacent duplicates the name is gone from the bank |
| ExerciseSelection.RemoveAbsentIsNoop | utils/exercise_selector.py:49-56 | removing a name the bank does not hold changes nothing |
| ExerciseSelection.RaisesDependsOnKeys | utils/exercise_selector.py:18-32 | whether selection raises depends only on the bank's keys, so removal never changes it |
| ExerciseSelection.SelectAfterRemove | utils/exercise_selector.py:49-56 | after removing a name without adjacent duplicates, selection still does not raise and never returns that name |
| ExerciseSelection.RemoveKeepsUnique | utils/exercise_selector.py:49-56 | in a bank without repeated names, removal takes the name out entirely and keeps names unique |
| ExerciseSelection.RemoveKeepsAbsent | utils/exercise_selector.py:49-56 | removing one name never brings back another |
| ExerciseSelection.SelectAbsent | utils/exercise_selector.py:34-37 | selection never returns a name the bank does not hold |
| ExerciseSelection.SelectAfterRemoveCanReturnName | utils/exercise_selector.py:54-56 | with two adjacent records of the name, selection after removal can still return it |
| ExerciseSelection.RemoveFromList | utils/exercise_selector.py:54-56 | the loop over one list, with `list.remove`, computes the scan `RemoveNamed` |
| ExerciseSelection.ExerciseSelector.constructor | utils/exercise_selector.py:6-8 | the loaded bank and the current bank are the file's contents |
| ExerciseSelection.ExerciseSelector.ExerciseCategories | utils/exercise_selector.py:45-47 | returns the category keys in order; removal never changes them |
| ExerciseSelection.ExerciseSelector.RemoveExercise | utils/exercise_selector.py:49-56 | the bank becomes the bank with the name removed from every list; keys unchanged, records stay named |
| ExerciseSelection.ExerciseSelector.Reset | utils/exercise_selector.py:58-60 | the bank is again the bank first loaded |
| Phases.TotalStepsIsProduct | utils/timer.py:19 | `total_steps = len(exercises) * rounds * (work + rest)` |
| Phases.ExercisePhasesSum | utils/timer.py:24-37 | the phases of one exercise last work + rest seconds |
| Phases.ExercisePhasesCounts | utils/timer.py:31-32 | one exercise has one work phase, and one rest phase unless the rest is skipped |
| Phases.RoundStepsFacts | utils/timer.py:23-37 | a round over n exercises has n work phases, n rest phases (none when rests are skipped), and lasts n * (work + rest) |
| Phases.ScheduleFacts | utils/timer.py:19-37 | m rounds: m * n work phases, as many rest phases (none when rests are skipped), lasting exactly `total_steps` |
| Phases.ScheduleStepsInRange | utils/timer.py:22-37 | every phase carries a round of the run, an exercise of the list and its own length |
| Phases.TwoByTwoExample | utils/timer.py:15-37 | two exercises, work 10, rest 5, two rounds: the eight phases in order, and 60 seconds in total |
| Phases.NoRestExample | utils/timer.py:31-37 | with a rest of 0, the blocking timer runs only the work phase; the Tk timer also starts a rest of length 0 |
| BlockingTimer.MmSs | utils/timer.py:7 | `divmod(remaining, 60)`: minutes and seconds (below 60) that make up `remaining` |
| BlockingTimer.CountdownShape | utils/timer.py:5-10 | a countdown of d seconds ticks d times, with elapsed 0..d-1 and the clock showing d..1 |
| BlockingTimer.Countdown | utils/timer.py:3-13 | the countdown loop produces exactly the ticks of `CountdownTicks` |
| BlockingTimer.CountedCalls | utils/timer.py:9-10 | a phase of d seconds reports (exercise, phase, k, d) for k = 0..d-1 |
| BlockingTimer.TraceCountsBounded | utils/timer.py:25-34 | every phase start reports a step count between the count before the phases and the count after them, and the same total |
| BlockingTimer.WorkoutTimerWithProgress | utils/timer.py:15-37 | the callback receives exactly the trace of the phase schedule, and the final step count is the schedule's length in seconds |
| BlockingTimer.RunRounds | utils/timer.py:22-37 | the round loop reports the trace of every round in order |
| BlockingTimer.ReportExercise | utils/timer.py:24-37 | one exercise adds its work start and countdown, then its rest start and countdown only when the rest is positive |
| BlockingTimer.Round | utils/timer.py:23-37 | one round extends the reported trace by that round's phases |
| BlockingTimer.WorkoutProgress | utils/timer.py:19-37 | with durations that are not negative, every step count reported lies within 0..total_steps, and the final count is total_steps whenever `rounds` is not negative |
| TkTimer.Final | utils/workout_timer.py:185-187 | the last round run is the round bound, or the first round when the bound is below it |
| TkTimer.FinalCountsRounds | utils/workout_timer.py:172-199 | `rounds` rounds run, and at least one |
| TkTimer.PhaseCountsDown | utils/workout_timer.py:126-140 | a phase of length d shows remaining d..0 as elapsed goes 0..d, and `next_action` runs only after the last update |
| TkTimer.PlanIsLastPrefix | utils/workout_timer.py:185-199 | the whole plan is the phases begun once every exercise of the last round has run |
| TkTimer.WorkoutRun.constructor | utils/workout_timer.py:53-54 | `total_steps` is the product of the exercise count, rounds and phase lengths, and `step_count` starts at 0; `next_exercise` on the first round then begins the first work phase: `step_count` is the work length, its first update is the only one shown, and its second is scheduled, or the run crashes when that phase or the workout has length 0; with no exercises the run is at once complete with nothing shown |
| TkTimer.WorkoutRun.Tick | utils/workout_timer.py:126-138 | when the pending update fires while paused, it is stored and nothing else changes; otherwise exactly that update is shown, with the outcome `Show` states, and the stored update is kept |
| TkTimer.WorkoutRun.TogglePause | utils/workout_timer.py:56-65 | pausing changes nothing else (status, pending and stored updates, updates shown, `step_count`, phases begun); resuming runs exactly the stored update, with the outcome `Show` states, and clears it unless it raised; resuming with nothing stored raises exactly in the older copy and changes nothing else; resuming a crashed run raises and changes nothing |
| TkTimer.WorkoutRun.RunStored | utils/workout_timer.py:62-65 | resuming runs the stored `update_timer` call, with the outcome `Show` states, and clears it unless it raised |
| TkTimer.WorkoutRun.UpdateTimer | utils/workout_timer.py:81-93 | while paused the update is stored and nothing is shown; otherwise it is shown, with the outcome `Show` states |
| TkTimer.WorkoutRun.Show | utils/workout_timer.py:95-140 | the update is appended to those shown; with a phase or workout total of 0 the run crashes and nothing else changes; with seconds left the same update one second on is scheduled and nothing else changes; at 0 its `next_action` runs, with the outcome `RunNext` states |
| TkTimer.WorkoutRun.RunNext | utils/workout_timer.py:176-184 | after a work phase the rest phase of the same exercise begins; after a rest the next exercise, or the next round's first, begins, or the run completes with nothing more shown or counted |
| TkTimer.WorkoutRun.StartWork | utils/workout_timer.py:142-155 | `step_count` grows by the work length, the work phase is appended to those begun, its first update is shown and its second scheduled, or the run crashes on a length of 0 |
| TkTimer.WorkoutRun.StartRest | utils/workout_timer.py:157-170 | `step_count` grows by the rest length, the rest phase is appended to those begun, its first update is shown and its second scheduled, or the run crashes on a rest of 0 |
| TkTimer.WorkoutRun.NextExercise | utils/workout_timer.py:172-196 | exercise `index` of the round begins its work phase; past the last exercise the next round's first begins; past the last round the run completes with nothing more shown or counted |
| TkTimer.PrefixInPlan | utils/workout_timer.py:172-187 | the phases begun before any exercise of a round that runs are a prefix of the plan |
| TkTimer.StartedInPlan | utils/workout_timer.py:172-199 | at every moment, the phases a run has begun are a prefix of its plan |
| TkTimer.StepCountWithinTotal | utils/workout_timer.py:142-170 | with durations that are not negative and at least one round, `step_count` stays within `total_steps` and equals it once complete |
| TkTimer.ZeroLengthNeverCompletes | utils/workout_timer.py:122 | with exercises and a work or rest of 0, the run never reaches "Workout Complete!" |
| TkTimer.LegacyPlanIsShifted | workout_generator.py:311-333 | the older copy runs the same phases with every round lowered by one |
| TkTimer.PlanShape | utils/workout_timer.py:172-199 | the plan has `rounds` (at least one) rounds of n work and n rest phases, lasts `total_steps`, and every phase is in range |
| Builder.StripSpec | workout_generator_tk.py:254 | `strip()` gives the empty string exactly for whitespace-only text, and otherwise text with no whitespace at either end |
| Builder.StripPadded | workout_generator_tk.py:254 | `strip()` removes exactly the whitespace padding around a name |
| Builder.ClassifySpec | workout_generator_tk.py:261-283 | a slot is manual exactly when its stripped text is neither empty nor the placeholder, and blank exactly when it is not manual and both boxes are empty; a query passes each filled box and None for an empty one |
| Builder.DispatchMatchesRawQuery | workout_generator_tk.py:264-276 | the three-way dispatch raises and selects exactly as one call with both box texts would |
| Builder.ResolveSlotSpec | workout_generator_tk.py:254-301 | a slot gives the manual entry, or the selected record with its link and the box texts; it is left blank exactly when blank, raises exactly when selection raises, and is unmatched only when selection finds no name |
| Builder.ResolveSlotFits | workout_generator_tk.py:261-294 | every entry a slot yields is what the slot asks for; only a random query fails |
| Builder.ResolveSlotSkipsAbsent | workout_generator_tk.py:264-275 | a random slot never yields a name the bank does not hold |
| Builder.RemoveFromBankClears | workout_generator_tk.py:294 | removing each appended name keeps the bank free of every listed name |
| Builder.PassKeepsList | workout_generator_tk.py:248-301 | with a loaded list the loop changes neither the list nor the bank, and no unmatched slot stops it |
| Builder.PassKeepsBank | workout_generator.py:353-401 | the older loop never changes the bank |
| Builder.PassShape | workout_generator_tk.py:252-301 | the list only grows from the old one; the loop runs to the end exactly when every slot is appended; an early stop names the first slot not appended |
| Builder.PassFits | workout_generator_tk.py:252-301 | every appended entry is what its slot asks for, and an early stop is at a slot that can stop the loop |
| Builder.PassCleared | workout_generator_tk.py:285-294 | after the loop, no listed name is left in the bank |
| Builder.PassNoRepeats | workout_generator_tk.py:285-294 | a random pick never repeats a name already in the list |
| Builder.TkPassNoRepeats | workout_generator_tk.py:252-301 | from an empty list and a bank without repeated names, no random pick repeats an earlier entry |
| Builder.PlaceholderIsNoName | workout_generator_tk.py:158 | the placeholder stays the placeholder after `strip()`, so it never counts as a manual name |
| Builder.SquatChosen | workout_generator_tk.py:266-269 | a legs slot over a bank holding only "Squat" picks "Squat" |
| Builder.SquatRemoved | workout_generator_tk.py:294 | removing "Squat" empties that bank's legs list |
| Builder.SquatGone | workout_generator_tk.py:295-301 | the same slot then finds no exercise |
| Builder.LegacyRepeatsPick | workout_generator.py:386-394 | the older builder gives "Squat" twice for two legs slots |
| Builder.RemovalStopsRepeat | workout_generator_tk.py:285-301 | the Tk builder appends "Squat" once and then stops at the second slot |
| Builder.ExerciseSlots | workout_generator_tk.py:126-162 | no slots for a count of 0 or less; otherwise `count` slots with empty boxes, showing the saved name where there is one and the placeholder elsewhere |
| Builder.UntouchedSlotsAreBlank | workout_generator_tk.py:276-283 | previewing untouched fresh slots stops at the first one |
| Builder.ValidateTimer | workout_generator_tk.py:308-320 | the fields are rejected when any of them is not a number, and accepted exactly when work > 0, rest >= 0 and rounds > 0, keeping the values |
| Builder.Decide | workout_generator_tk.py:295-326 | a preview succeeds exactly when no slot failed, the list is not empty and the timer fields pass; a slot failure comes first |
| Builder.RetryKeepsPartialList | workout_generator_tk.py:248-250 | a preview failing after appending some slots leaves a partial list, which the next preview keeps unchanged |
| Builder.WorkoutGenerator.constructor | workout_generator_tk.py:11-25 | a fresh selector over the bank, an empty list, no exercises counted, an empty timer configuration |
| Builder.WorkoutGenerator.CreateExerciseSlots | workout_generator_tk.py:108-130 | a count that is not a number changes nothing; otherwise the count is stored, the equipment choice loads a fresh selector, and the slots are laid out for a positive count |
| Builder.WorkoutGenerator.PreviewSlot | workout_generator_tk.py:252-301 | one slot advances the loop exactly as `Pass` does, removing each appended name from the selector's bank |
| Builder.WorkoutGenerator.PreviewSlots | workout_generator_tk.py:248-301 | the loop leaves the list, the bank and the stop that `Pass` gives, in keep mode when the list was not empty |
| Builder.WorkoutGenerator.PreviewWorkout | workout_generator_tk.py:244-326 | the list and bank after the loop, the outcome from `Decide`, and the timer configuration stored exactly on success |
| Builder.LegacyBuilder.constructor | workout_generator.py:14-25 | a fresh selector over the bank, an empty list, the saved timer configuration |
| Builder.LegacyBuilder.PreviewSlot | workout_generator.py:353-401 | one slot advances the loop as `Pass` does, with the bank left alone |
| Builder.LegacyBuilder.PreviewSlots | workout_generator.py:351-401 | the list is rebuilt from empty: `Pass` without removal |
| Builder.LegacyBuilder.PreviewWorkout | workout_generator.py:349-422 | the rebuilt list, the outcome from `Decide`, and the timer configuration stored exactly on success |
| Builder.LegacyExerciseSlots | workout_generator.py:97-132 | a count that is not a number or is not positive gives no slots; otherwise that many slots showing the placeholder |

## Left out

- Widgets are not modelled: windows, labels, progress bars, images, browser links and message boxes. An error message box is the outcome that names the error.
- The Tk labels shown are recorded as the arguments of each `update_timer` call, not as label text. The two progress bars are floating-point fractions and are not modelled. Their divisions by zero are modelled, as `Crashed`.
- In the older Tk copy, `update_timer` takes no link and no round. The model's updates carry both for both copies.
- File I/O is not modelled. This covers `load_exercise_bank`, `file_operations.py`, saving and loading workouts and timer configurations, and `exercises.json` versus `no_equipment_exercises.json`. Bank contents are parameters (`Reset`, `CreateExerciseSlots`, the constructors), and the saved timer configuration is a constructor argument.
- `int(...)` on a text field is not modelled. Its result is an `Option<int>`, with None where it raises ValueError.
- `str.strip()` is modelled for the ASCII whitespace that `str.isspace()` accepts. Non-ASCII whitespace is not modelled.
- Only which element `random.choice` may return is modelled, not its distribution.
- `time.sleep`, `frame.after` delays and real time are not modelled. A tick is a step, and `Tick` fires the pending update.
- The methods `PreviewSlot`, `PreviewSlots`, `Show`, `RunNext`, `RunStored` and `Round` are not part of the source. They are its loop bodies and closure calls split out, and the verified loop and chain are the same.
- ExerciseSelection.ExerciseSelector.RemoveExercise requires every record to have a "name" key. A record without one makes `remove_exercise` raise KeyError, and that case is not modelled.
- Builder.WorkoutGenerator.PreviewWorkout requires every record to have a "name" key. Its `remove_exercise` call would otherwise raise KeyError, and that case is not modelled.
- Builder.LegacyBuilder.PreviewWorkout requires nothing of the bank, because it never removes.
- Builder.LegacyBuilder.constructor assumes loaders that take no argument and return a list. In this revision `__init__` calls `load_workouts()` and `load_timer_config()` with no argument (workout_generator.py:24-25), while both require a `filename` (utils/file_operations.py:21, 44). So `__init__` raises TypeError and the older builder cannot be built; `load_saved_workout` and `load_timer_config_ui` fail the same way. That failure is not modelled.
- Builder.WorkoutGenerator.PreviewWorkout: `load_workouts` returns a dict keyed by exercise name, so after "Load Workout" (workout_generator_tk.py:72-74) the slot loop indexes that dict by position (workout_generator_tk.py:146) and raises KeyError for any non-empty saved workout. The model's loaded list is a list; keep mode is reached in the model as in the source through "Back to Edit" or a failed preview, and the KeyError is not modelled.
- Record values are modelled as strings, present or missing. A JSON `"link": null` (which the source turns into an entry `(name, None)` and appends) or a numeric field value is not represented.
- TkTimer.WorkoutRun.TogglePause: after a `ZeroDivisionError` the run is `Crashed` and terminal. A later resume of a crashed run is reported as raising and is not run again. The stored update would fail the same way.
- TkTimer.WorkoutRun.StartWork gives the exact new state only for a work length of 0 or more. A negative length makes the first `update_timer` call go straight on to `next_action`, and then only the run's consistency is stated.
- TkTimer.WorkoutRun.StartRest gives the exact new state only for a rest length of 0 or more, for the same reason.
- TkTimer.WorkoutRun.NextExercise, TkTimer.WorkoutRun.RunNext, TkTimer.WorkoutRun.Show, TkTimer.WorkoutRun.UpdateTimer, TkTimer.WorkoutRun.Tick and TkTimer.WorkoutRun.RunStored say nothing beyond consistency once a phase of negative length is reached, for the same reason.
- TkTimer.WorkoutRun.constructor gives the exact first state only for a work length of 0 or more, for the same reason.
- ExerciseSelection.ExerciseSelector.Reset assumes that reading the bank file again yields the bank first loaded. A file changed on disk in between is not modelled.
- TkTimer.WorkoutRun.constructor starts unpaused with nothing stored. In the source, `paused` and `pause_event` live on the long-lived GUI object, so a run started while an earlier one is paused inherits them. That is not modelled.
- The Tk timer's runs are not interleaved: one run per object. Two runs sharing `self.paused` are not modelled.
- Phases.TotalStepsIsProduct: `total_steps` is computed through a recursive `Mul` (repeated addition), proved equal to the product. Python's unbounded integers need no wrap-around.
- The slot loop is proved once, generically, over any resolver and remover with the stated guarantees. The two builders instantiate it, with removal (Tk) and without it (older).
- `show_preview_screen`, `go_back_to_edit`, `create_workout`, `load_saved_workout`, `main_menu` and the HTML/Flask front end are not modelled. They build widgets or persist data.
