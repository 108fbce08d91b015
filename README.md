# Rosetta mover containers, LoopOver, BuriedUnsatHbondFilter2 and NCAA rotamer-library settings in Dafny

This project models four pieces of the Rosetta molecular-modelling suite and proves
properties of the models:

- **LoopOver** (`ProteinInterfaceDesign`, `loop_over.dfy`) is a mover that wraps another mover
  and a filter. It saves the pose, then applies the wrapped mover again and again. Without
  drift, each attempt starts again from the saved pose. The filter is evaluated only after
  an attempt whose mover status is `MS_SUCCESS`. The loop stops when the filter passes or
  when `max_iterations` attempts are spent. LoopOver then reports `MS_SUCCESS`, or the
  configured `ms_whenfail` status. A failed loop without drift hands back the saved pose;
  with drift it hands back the pose of the last mover call.
  The mover's info lines are collected in order. A wrapped mover that produces additional
  output poses stops the run.
  The pose is an opaque type parameter. The wrapped mover is a total function from the pose
  it is applied to and the iteration number to a (pose, status, info) outcome. The filter is
  a total function of the pose and the iteration number. The iteration number stands for
  whatever internal state or randomness makes successive calls differ.
  `Apply` is a `while` loop proved against `Continue`, which mirrors the loop step by step.
  `LoopMatchesRun` connects `Continue` to `Run`, which describes a call through the list of
  its iterations (`Attempts`). The properties are lemmas about `Attempts` and `Run`.
- **The MoverContainer family** (`Moves`, `moves.dfy`): the ordered `movers_` and `weight_`
  vectors of `MoverContainer`, and the state of the four container kinds:
  `SequenceMover`'s `use_mover_status_` flag, `RandomMover`'s defaults, `CycleMover`'s cursor
  and `SwitchMover`'s selection. Only the header is part of the model. The subclasses are
  modelled as classes that each own a fresh `MoverContainer` (field `container`), since the
  model has no inheritance.
- **BuriedUnsatHbondFilter2** (`Buns`, `buns.dfy`) decides whether a pose passes. Its
  `compute` combines the burial calculator's bound and unbound counts into one count. This
  uses the unsigned 64-bit arithmetic of `core::Size`, with wrap-around written out.
  `apply` passes when that count is at most the threshold. The calculator's results, the
  pose's size and jump count, and the task factory's residue selection are inputs.
- **NCAARotamerLibrarySpecification** (`Rotamers`, `ncaa_rotlib.dfy`) is a configuration
  record with setters. Its rotameric-bin count is derived from the bins list. Its list of
  backbone torsion indices stays free of 0 and of duplicates.

`MoverStatus` (`Moves.MoverStatus`) is the five-valued status `MS_SUCCESS`, `FAIL_RETRY`,
`FAIL_DO_NOT_RETRY`, `FAIL_BAD_INPUT`, `FAIL`. A fatal stop of the run (`utility_exit_with_message`,
`runtime_assert`, a failed lookup) is the `Fatal` case of `Wrappers.Result`.

Where the code's behaviour is not visible, these readings were chosen:

- `CycleMover::apply` is in a `.cc` file that is not part of this model. It is modelled from
  its header comments: each call applies the next mover and starts over after the last
  (MoverContainer.hh:245-247). The cursor "may need modulo operation first" (line 268). So
  `Apply` first reduces the cursor modulo the number of movers, applies that mover and
  stores the index plus one. The cursor is therefore never reduced after use. On a
  container that is not changed between calls, the movers used are the same as with a
  cursor that is advanced modulo the number of movers. They can differ when movers are
  added between calls (see "## Left out").
- `add_mover` appends the mover and its weight. The header says only that the mover goes at
  the end (line 53); that the weight goes with it is inferred from `weight_`'s comment
  (lines 94-95).
- `add_rotamer_bb_torsion_index`'s body is not part of this model. Its comment says it
  "checks for zero or duplicated indices" (NCAARotamerLibrarySpecification.hh:106). The
  model stops the run on either and otherwise appends the index.

## Model

| member | source | states |
|---|---|---|
| `ProteinInterfaceDesign.Attempts` | source/src/protocols/protein_interface_design/movers/LoopOver.cc:83-100 | The iterations of the `while` loop from iteration `count`. There are none exactly when the budget is spent. The first starts from the current pose with drift and from the saved pose without, and it gets iteration number `count`. An iteration that passed the filter is the last one. |
| `ProteinInterfaceDesign.Run` | source/src/protocols/protein_interface_design/movers/LoopOver.cc:82-106 | The result of `apply`: the iterations are `Attempts` from the entry pose, and the info is theirs in order. The status is `MS_SUCCESS` or `ms_whenfail`, and `MS_SUCCESS` when the last iteration passed. A failed loop without drift hands back the entry pose, and with drift the pose the last mover call produced. |
| `ProteinInterfaceDesign.Continue` | source/src/protocols/protein_interface_design/movers/LoopOver.cc:83-106 | The loop step by step from a state in its middle. Once the filter has passed, the loop ends with the current pose, `MS_SUCCESS` and the info so far. The status is always `MS_SUCCESS` or `ms_whenfail`. The info so far is kept as a prefix of the final info. |
| `ProteinInterfaceDesign.AttemptsFollowSettings` | source/src/protocols/protein_interface_design/movers/LoopOver.cc:83-99 | At most the remaining budget of iterations run. In iteration i the mover gets iteration number count + i. The filter is evaluated exactly when that call's status is `MS_SUCCESS`, on the mover's pose. An iteration passes only if the filter was evaluated and returned true. |
| `ProteinInterfaceDesign.AttemptsStopAtFirstPass` | source/src/protocols/protein_interface_design/movers/LoopOver.cc:82-83 | No iteration before the last passed the filter. If the last did not pass either, every iteration of the budget was spent. |
| `ProteinInterfaceDesign.AttemptsStartingPoses` | source/src/protocols/protein_interface_design/movers/LoopOver.cc:72-90 | Without drift every iteration starts from the saved entry pose. With drift the first starts from the current pose and each later one from the pose the previous one produced. |
| `ProteinInterfaceDesign.RunOutcome` | source/src/protocols/protein_interface_design/movers/LoopOver.cc:82-106 | The mover is applied at most `max_iterations` times. With a budget of 0 nothing runs, the info is empty, the pose is unchanged and the status is `ms_whenfail`. The status is `MS_SUCCESS` when the last filter evaluation passed, and the pose is then that iteration's pose. Otherwise the status is `ms_whenfail` and the budget was spent. The pose is then the entry pose without drift, and with drift the pose the last mover call produced, which line 103 does not restore. |
| `ProteinInterfaceDesign.ResetScenario` | source/src/protocols/protein_interface_design/movers/LoopOver.cc:83-106 | Without drift, with a budget of 5, a mover that always succeeds and a filter that passes only on the fifth result: the status is `MS_SUCCESS` and the pose is one application of the mover to the entry pose, not five. |
| `ProteinInterfaceDesign.DriftScenario` | source/src/protocols/protein_interface_design/movers/LoopOver.cc:83-103 | With drift, with a budget of 3, `ms_whenfail` = `FAIL_RETRY`, a mover that always succeeds and a filter that never passes: the status is `FAIL_RETRY` and the pose carries the three chained applications. |
| `ProteinInterfaceDesign.ContinueFollowsAttempts` | source/src/protocols/protein_interface_design/movers/LoopOver.cc:83-106 | The loop run step by step from any iteration, before the filter has passed, ends with the pose, status and info that the iterations from there determine. The info is the info so far followed by each iteration's info in order. |
| `ProteinInterfaceDesign.LoopMatchesRun` | source/src/protocols/protein_interface_design/movers/LoopOver.cc:71-106 | Run from the start with cleared info, the loop gives exactly the pose, status and info of `Run`. |
| `ProteinInterfaceDesign.ParsedOptions` | source/src/protocols/protein_interface_design/movers/LoopOver.cc:116-122 | Defaults for absent tag options: drift true, filter `"false_filter"`, 10 iterations, `MS_SUCCESS` on failure. A given option is taken as it is. |
| `ProteinInterfaceDesign.LoopOver.Default` | source/src/protocols/protein_interface_design/movers/LoopOver.cc:47-51 | A new LoopOver has 10 iterations, `MS_SUCCESS` as failure status, and no mover or filter yet. |
| `ProteinInterfaceDesign.LoopOver.constructor` | source/src/protocols/protein_interface_design/movers/LoopOver.cc:53-64 | The budget, mover, filter and failure status are those given. |
| `ProteinInterfaceDesign.LoopOver.ParseMyTag` | source/src/protocols/protein_interface_design/movers/LoopOver.cc:110-128 | Drift, budget and failure status become the parsed options. The run stops unless the mover and filter names are found, and the mover and filter are then the ones found. |
| `ProteinInterfaceDesign.LoopOver.Apply` | source/src/protocols/protein_interface_design/movers/LoopOver.cc:68-107 | A mover with additional output stops the run after `info` was cleared. Otherwise the returned pose, the last status and `info` are those of `Run` on the entry pose. |
| `Moves.MoverContainer.constructor` | source/src/protocols/moves/MoverContainer.hh:48 | A new container has no movers and no weights. |
| `Moves.MoverContainer.AddMover` | source/src/protocols/moves/MoverContainer.hh:53-54 | The mover is appended at the end and its weight (default 1.0) after the weights. The size grows by one and the last mover is the new one. Every mover keeps a weight (`Valid`). |
| `Moves.MoverContainer.Clear` | source/src/protocols/moves/MoverContainer.hh:58 | The movers are emptied and the weights are left untouched. |
| `Moves.MoverContainer.Size` | source/src/protocols/moves/MoverContainer.hh:74 | `size()` is the number of movers. |
| `Moves.MoverContainer.NrMoves` | source/src/protocols/moves/MoverContainer.hh:73 | `nr_moves()` equals `size()`. |
| `Moves.MoverContainer.Front` | source/src/protocols/moves/MoverContainer.hh:76 | `front()` on a non-empty container is the first mover. |
| `Moves.ClearThenAddKeepsOldWeight` | source/src/protocols/moves/MoverContainer.hh:53-58 | After `add_mover(a)`, `clear()`, `add_mover(b, 5.0)`, the movers are `[b]` but the weights are `[1.0, 5.0]`. The weight at `b`'s position is the cleared mover's. |
| `Moves.SequenceMover.constructor` | source/src/protocols/moves/MoverContainer.hh:110-113 | A new SequenceMover is empty, and `use_mover_status` is the argument, false by default. |
| `Moves.SequenceMover.SetUseMoverStatus` | source/src/protocols/moves/MoverContainer.hh:140-146 | `use_mover_status()` returns the last flag set. |
| `Moves.RandomMover.constructor` | source/src/protocols/moves/MoverContainer.hh:192 | A new RandomMover has `nmoves_` = 1, `last_proposal_density_ratio_` = 1.0, `index_of_last_mover_used_` = 0 and no repeats. |
| `Moves.CycleMover.constructor` | source/src/protocols/moves/MoverContainer.hh:253 | A new CycleMover is empty with its cursor at 0. |
| `Moves.CycleMover.Apply` | source/src/protocols/moves/MoverContainer.hh:245-268 | On a non-empty container, the mover used is the cursor modulo the number of movers. The pose is that mover's result, and the cursor moves to the next index. |
| `Moves.CycleMover.ResetCycleIndex` | source/src/protocols/moves/MoverContainer.hh:264 | The cursor goes back to 0. |
| `Moves.CycleSchedule` | source/src/protocols/moves/MoverContainer.hh:245-247 | Successive calls use one mover each, always a valid index. |
| `Moves.NextInCycle` | source/src/protocols/moves/MoverContainer.hh:246-247 | The mover after the last is the first; otherwise the next one. |
| `Moves.CycleScheduleWraps` | source/src/protocols/moves/MoverContainer.hh:245-268 | From a cursor in range the first call uses that cursor. Each later call uses the mover after the one before, wrapping round after the last. |
| `Moves.CycleMover.ApplyRepeatedly` | source/src/protocols/moves/MoverContainer.hh:245-268 | A number of successive `apply` calls use the movers `CycleSchedule` lists from the cursor at the start, so by `CycleScheduleWraps` each call uses the mover after the one before, wrapping round after the last. The pose is those movers applied in that order, and the cursor ends where `CursorAfter` says. |
| `Moves.CursorAfter` | source/src/protocols/moves/MoverContainer.hh:268 | After at least one call, the cursor is between 1 and the number of movers. |
| `Moves.CycleScheduleSnoc` | source/src/protocols/moves/MoverContainer.hh:245-268 | One more call uses the mover at the cursor, reduced modulo the number of movers, and leaves the cursor one past that mover. |
| `Moves.CycleFourThenReset` | source/src/protocols/moves/MoverContainer.hh:245-264 | Over three movers, four calls use movers 0, 1, 2, 0, and after `reset_cycle_index()` the next call uses 0. |
| `Moves.SwitchMover.constructor` | source/src/protocols/moves/MoverContainer.hh:279 | A new SwitchMover has empty user name, mover names and selection, and `available_` false. |
| `Moves.SwitchMover.SetSelected` | source/src/protocols/moves/MoverContainer.hh:290-291 | `selected()` returns the last name set. |
| `Buns.SizeSub` | source/src/protocols/buns/BuriedUnsatHbondFilter2.cc:185 | Unsigned subtraction gives the difference when it is not negative. Otherwise it wraps round to 2^64 minus the shortfall. |
| `Buns.SizeMax` | source/src/protocols/buns/BuriedUnsatHbondFilter2.cc:194 | `std::max` of two values is one of them and at least both. |
| `Buns.SizeAdd` | source/src/protocols/buns/BuriedUnsatHbondFilter2.cc:194 | Unsigned addition gives the sum when it fits, and otherwise the sum less 2^64. |
| `Buns.UnboundCounts` | source/src/protocols/buns/BuriedUnsatHbondFilter2.cc:161-180 | With jump number 0 the unbound total is 0 and the unbound per-residue counts are zeros, one per residue of the pose. Otherwise they are the calculator's counts for the separated pose. |
| `Buns.DifferenceAsWritten` | source/src/protocols/buns/BuriedUnsatHbondFilter2.cc:194 | `std::max(bound - unbound, Size(0))` is exactly the wrapping subtraction: the `max` has no effect. |
| `Buns.Difference` | source/src/protocols/buns/BuriedUnsatHbondFilter2.cc:194 | The intended term is never above the bound count. It is bound minus unbound when that is not negative, and 0 otherwise. |
| `Buns.SelectedSumAsWritten` | source/src/protocols/buns/BuriedUnsatHbondFilter2.cc:193-196 | The per-residue loop as written gives a `core::Size` value. |
| `Buns.SelectedSum` | source/src/protocols/buns/BuriedUnsatHbondFilter2.cc:193-196 | The per-residue loop with clamped terms gives a `core::Size` value. |
| `Buns.SumAt` | source/src/protocols/buns/BuriedUnsatHbondFilter2.cc:193-194 | The wrapping sum of the selected residues' values is a `core::Size` value. |
| `Buns.SelectedSumAgreesWithoutExcess` | source/src/protocols/buns/BuriedUnsatHbondFilter2.cc:193-194 | When no selected residue has more unbound than bound groups, the loop as written and the clamped loop give the same count. |
| `Buns.SelectedSumExact` | source/src/protocols/buns/BuriedUnsatHbondFilter2.cc:193-194 | When the clamped differences add up to less than 2^64, the count is exactly their sum. |
| `Buns.SelectedSumWithoutUnbound` | source/src/protocols/buns/BuriedUnsatHbondFilter2.cc:161-168 | With all unbound counts zero, the loop adds up the bound counts of the selected residues. |
| `Buns.ExcessUnboundWrapsAsWritten` | source/src/protocols/buns/BuriedUnsatHbondFilter2.cc:194 | Bound 0 and unbound 1 at the one selected residue give 2^64 - 1 as written and 0 when clamped. |
| `Buns.Count` | source/src/protocols/buns/BuriedUnsatHbondFilter2.cc:135-200 | The count with each selected residue's term clamped at 0, as line 194 evidently intends. The run stops exactly when the jump number exceeds the pose's jump count. The count is a `core::Size` value, and it is 0 with a task factory and an empty selection. |
| `Buns.CountAsWritten` | source/src/protocols/buns/BuriedUnsatHbondFilter2.cc:135-200 | The count as the code computes it, with the wrapping per-residue term of line 194. It stops the run in the same cases and has the same bounds as `Count`. |
| `Buns.CountAgreesWithAsWritten` | source/src/protocols/buns/BuriedUnsatHbondFilter2.cc:182-199 | When no selected residue has more unbound than bound groups, `Count` and `CountAsWritten` are equal. |
| `Buns.CountOfSelection` | source/src/protocols/buns/BuriedUnsatHbondFilter2.cc:187-198 | With a task factory and a non-empty selection, the count is the exact sum of the selected residues' clamped differences whenever that sum is below 2^64. |
| `Buns.CountAsWrittenWraps` | source/src/protocols/buns/BuriedUnsatHbondFilter2.cc:182-199 | For jump 1, one residue with bound 0 and unbound 1, and that residue selected, the count as written is 2^64 - 1, above the default cutoff 20, while `Count` is 0. |
| `Buns.CountCases` | source/src/protocols/buns/BuriedUnsatHbondFilter2.cc:161-199 | With jump 0 and no task factory the count is the bound total. With jump 0 and a task factory it is the sum of the selected bound counts. With a jump and no task factory it is bound minus unbound total whenever the unbound total is not larger. |
| `Buns.BuriedUnsatHbondFilter2.constructor` | source/src/protocols/buns/BuriedUnsatHbondFilter2.cc:43-49 | The threshold and jump number are those given, with no task factory. |
| `Buns.BuriedUnsatHbondFilter2.ParseMyTag` | source/src/protocols/buns/BuriedUnsatHbondFilter2.cc:66-107 | The jump number defaults to 1 and the cutoff to 20. The task factory is the one built from the tag. |
| `Buns.BuriedUnsatHbondFilter2.SetTaskFactory` | source/src/protocols/buns/BuriedUnsatHbondFilter2.cc:210-213 | `task_factory()` returns the last factory set. |
| `Buns.BuriedUnsatHbondFilter2.Compute` | source/src/protocols/buns/BuriedUnsatHbondFilter2.cc:135-200 | The loop over the selected residues accumulates exactly `Count`, the count with the clamped per-residue term. This equals the code's count when no selected residue has more unbound than bound groups (`CountAgreesWithAsWritten`). |
| `Buns.BuriedUnsatHbondFilter2.Apply` | source/src/protocols/buns/BuriedUnsatHbondFilter2.cc:109-121 | The filter stops the run exactly when the jump does not exist. Otherwise it passes if and only if the count is at most `upper_threshold_`. |
| `Rotamers.WithTorsionIndex` | source/src/core/chemical/rotamers/NCAARotamerLibrarySpecification.hh:105-108 | Index 0 or an index already listed is refused. Any other index is appended, so the list holds exactly the old indices and the new one. |
| `Rotamers.WithTorsionIndexKeepsWellFormed` | source/src/core/chemical/rotamers/NCAARotamerLibrarySpecification.hh:105-108 | Adding an index keeps the list free of 0 and of duplicates. |
| `Rotamers.NCAARotamerLibrarySpecification.constructor` | source/src/core/chemical/rotamers/NCAARotamerLibrarySpecification.hh:46 | The path is the one given, and the bins list and torsion indices are empty. |
| `Rotamers.NCAARotamerLibrarySpecification.SetNcaaRotlibPath` | source/src/core/chemical/rotamers/NCAARotamerLibrarySpecification.hh:52-54 | `ncaa_rotlib_path()` returns the last path set, and nothing else changes. |
| `Rotamers.NCAARotamerLibrarySpecification.SetNcaaRotlibNBinPerRot` | source/src/core/chemical/rotamers/NCAARotamerLibrarySpecification.hh:60-62 | The bins list round-trips, the rotameric-bin count becomes its length, and nothing else changes. |
| `Rotamers.NCAARotamerLibrarySpecification.SetSemirotamericNcaaRotlib` | source/src/core/chemical/rotamers/NCAARotamerLibrarySpecification.hh:64-65 | The flag round-trips, and nothing else changes. |
| `Rotamers.NCAARotamerLibrarySpecification.SetNrchiSymmetric` | source/src/core/chemical/rotamers/NCAARotamerLibrarySpecification.hh:67-68 | The flag round-trips, and nothing else changes. |
| `Rotamers.NCAARotamerLibrarySpecification.SetNrchiStartAngle` | source/src/core/chemical/rotamers/NCAARotamerLibrarySpecification.hh:70-71 | The angle round-trips, and nothing else changes. |
| `Rotamers.NCAARotamerLibrarySpecification.NcaaRotlibNRotamericBins` | source/src/core/chemical/rotamers/NCAARotamerLibrarySpecification.hh:77-79 | The rotameric-bin count is always the length of the bins list. |
| `Rotamers.NCAARotamerLibrarySpecification.AddRotamerBbTorsionIndex` | source/src/core/chemical/rotamers/NCAARotamerLibrarySpecification.hh:105-108 | The index is added as `WithTorsionIndex` says, or the run stops with the list unchanged. The list stays free of 0 and of duplicates. |
| `Rotamers.NCAARotamerLibrarySpecification.ClearRotamerBbTorsionIndices` | source/src/core/chemical/rotamers/NCAARotamerLibrarySpecification.hh:114-116 | The torsion-index list is empty afterwards. |

## Findings

| source | as written | input that shows it | evidently intended | confidence | as-written member | corrected member |
|---|---|---|---|---|---|---|
| source/src/protocols/buns/BuriedUnsatHbondFilter2.cc:194 | `std::max( bound[sr] - unbound[sr], core::Size(0) )` subtracts unsigned values, so a residue with more unbound than bound unsatisfied groups adds about 2^64 to the count. The `max` with 0 can never apply. | one selected residue with bound count 0 and unbound count 1: the count is 2^64 - 1 and the filter fails at any cutoff below that (default 20) | each residue contributes at least 0, so that residue contributes 0 | medium; not executed | `Buns.CountAsWritten` (with `Buns.SelectedSumAsWritten`, `Buns.DifferenceAsWritten`, `Buns.ExcessUnboundWrapsAsWritten`, `Buns.CountAsWrittenWraps`) | `Buns.Count` (with `Buns.SelectedSum`, `Buns.Difference`, `Buns.SelectedSumExact`, `Buns.SelectedSumAgreesWithoutExcess`, `Buns.CountAgreesWithAsWritten`, `Buns.CountOfSelection`) |

`Count`, `Compute` and `Apply` use the corrected per-residue term. `CountAgreesWithAsWritten`
shows this changes nothing whenever no selected residue has an excess of unbound groups.
The no-task-factory path, `total_bound - total_unbound` (line 185), has no clamp in the
source. The model keeps its wrap-around, in `SizeSub`.

## Left out

- `Buns.Count`, `Buns.BuriedUnsatHbondFilter2.Compute`, `Buns.BuriedUnsatHbondFilter2.Apply`:
  each selected residue adds the difference clamped at 0, not the wrapping difference of
  BuriedUnsatHbondFilter2.cc:194. So when a selected residue has more unbound than bound
  groups, the model's count can be smaller than the code's, and the model's filter can pass
  where the code's fails. `CountAsWritten` is the code's count, and `CountAsWrittenWraps`
  gives an input where the two differ.
- `Moves.CycleMover.Apply`: the cursor is reduced only at the next call. So when movers are
  added between calls, the next mover used can differ from what a cursor advanced modulo the
  number of movers would give. With two movers after two calls the cursor is 2, and after
  `add_mover` the third call uses the new mover at index 2, not index 0.

- LoopOver's wrapped mover and filter keep their own state between calls. The model captures
  that state only through the iteration number within one `apply` call.
- `ProteinInterfaceDesign.LoopOver.ParseMyTag`: the mover and the filter come from the
  script's data map. This is modelled as a lookup in two maps, where a missing name stops
  the run. The real lookups (`parse_mover`, `parse_filter`) are not part of this model.
  Neither is the conversion of the `ms_whenfail` string to a status, so the tag carries the
  status itself. Also not modelled: `parse_my_tag` stores the looked-up mover without
  cloning it, so other movers may change it later.
- Neither the default LoopOver constructor (LoopOver.cc:47-51) nor the constructor from a
  budget, mover, filter and failure status (lines 53-64) initialises `drift_`. Both model
  constructors take the drift flag as an extra parameter instead of guessing a value.
- Tracer logging, `provide_xml_schema`, citation reporting, the creator classes and
  `get_name` are registry and logging plumbing. The names `"LoopOver"` and
  `"BuriedUnsatHbonds2"` are kept as constants.
- `SequenceMover::apply`, `RandomMover::apply`, `SwitchMover::apply`, `get_selected_mover`,
  `get_mover`, `set_repeats`, `get_index_of_last_mover_used`, `last_proposal_density_ratio`,
  `set_input_pose`, `set_native_pose`, `set_current_tag`, the copy constructors and the two-
  and three-mover SequenceMover constructors: their bodies are in a `.cc` file that is not
  part of this model.
- RandomMover's weighted random choice depends on a random-number generator and real
  weights, and is not modelled.
- The header contradicts itself on `index_of_last_mover_used_ == 0`. Line 204 says it means
  the mover has not been applied yet. Line 241 says it means the first mover, since
  `movers_` is 0-based. The model keeps only the initial value 0.
- The task factory is represented only by whether it is present. The residues it selects
  (`residue_packer_states`) are an input.
- Scoring the pose, the burial calculator (`BuriedUnsatisfiedPolarsCalculator2`) and its
  options, and the 1000 Å rigid-body separation along the jump are inputs, not modelled.
  So are `report`, `report_sm`'s conversion to a real number, and the PDB-name logging.
- `Buns.BuriedUnsatHbondFilter2.constructor`: the argument-less constructor leaves the
  threshold and jump number uninitialised as far as the visible code shows, and is not
  modelled.
- `Rotamers.NCAARotamerLibrarySpecification.constructor`: the constructors' bodies are not
  part of this model. The path is taken as given, and the vectors start empty as C++
  vectors do. The two booleans and the start angle are left unspecified. The constructor
  from a stream is not modelled, nor are `clone`, `keyname`, `cache_tag`, `describe`,
  `library_name` or serialisation.
- NormalModeRelaxMover, FragmentDME, AddHydrogens, LoopFragmentClaimer, SAXSEnergyCreatorFA,
  qsarMoverCreator and the forward-declaration headers are not part of this model. They
  hold floating-point physics, calls into code that is not part of this model, or no logic.
