# Resident call scheduling: a model of the CP-SAT formulation

This project models the core of `monthly_schedule.py`. That core is the class
`ResidentSchedulingSolver`, which builds a CP-SAT model for a monthly on-call rotation of
clinical residents. The parts modelled are:

- **Calendar.** Day `d` of the horizon is weekday `d % 7`, and day 0 is a Monday. The constructor
  builds the working days (all Mondays, then all Tuesdays, ..., then all Fridays) and the
  weekends (all Saturdays, then all Sundays). `add_holiday` moves a working day to the weekends
  and sorts both lists.
- **Registry.** `add_resident_info` removes the no-fill days from a resident's vacation list,
  registers the resident and recomputes the call ratio.
- **Fairness arithmetic.** The call ratio, the expected total and weekend shift counts and
  the trauma day-call expectation are modelled. Python floats are exact reals here, and
  `int()` truncates toward zero (`Fairness.Trunc`).
- **Constraint compiler.** Each build function (`emergency_wednesday_halfday`,
  `cant_book_vacation_days`, `trauma_day_call`, `post_call_days`, `prefer_full_day_call`,
  the implications, `penalize_multiple_fridays`, `disperse_call`, `set_shift_expectations`,
  `assign_claimed_days`, `balance_trauma_call`, `strictly_bounded`) is a method of
  `Scheduler.Solver`. Each method appends to the fields `constraints` and `penalties` exactly
  what a pure emission function describes: `WednesdayRule`, `VacationRule`, `TraumaDayRule`,
  `PostCallRule`, `FullDayUpTo`, `FridaysRule`, `DisperseRule`, `SetExpectations`,
  `TraumaBalance`, `ClaimsRule`, `StrictlyBounded`, and `FridayImpliesSunday`,
  `FridayImpliesSaturday` and `MultidayImplication` for the implications. `setup_model`
  applies the junior or senior build list to every resident and adds the coverage
  constraints.
- **Decoder.** The shift counts and the weekend count that `print_schedule` reads back from a
  solution are modelled.

The CP-SAT solver is not modelled. A solution is an `Assignment`: a value for every shift
variable `X(block, day, shift)` and every auxiliary variable `Aux(block, kind)`.
`CpModel.Holds` gives the meaning of each constraint kind the source uses:
- `Add` with `OnlyEnforceIf`;
- `AddAtMostOne` and `AddExactlyOne`;
- `AddBoolXOr`, `AddImplication` and `AddBoolAnd`;
- the domains of `NewBoolVar` and `NewIntVar`.

The lemmas state what every assignment that satisfies the model built so far must look
like. They cover coverage, vacation and Wednesday exclusions, day-call eligibility, the
post-call rule, Friday implications, claims and the bounded windows. They also give the least
penalty each soft rule can cost.

A Python exception becomes a `Fail(error)` status. The constraints added before the exception
stay in the model, and nothing after it runs. `CpModel.Then` composes these statuses.

Each call to `add_resident_model` allocates a fresh block of variables. `schedules` maps a
name to its block, so when two residents share a name, the later block wins, as the
Python dict does.

Some expectations a reader might draw from the source's docstrings and names do not hold
of the code. The model follows the code:
- **No-fill days.** No-fill days are never forced to zero when the model is built.
  `cant_book_nofill_days` (`monthly_schedule.py:368-371`) would do it, but it is in
  neither build list, so `SetupModel` never applies it (`Solver.CantBookNofillDays` is
  modelled on its own).
- **Penalties that can be zero.** The docstring of `disperse_call`
  (`monthly_schedule.py:297`) describes a penalty when a week goes over the cap. In the
  code, only `weekly_exceeds_i ==> ...` is enforced, so a zero penalty is always allowed.
  `Penalties.DisperseMinimum` proves this. For the same reason, the repeated-Friday penalty
  can also be zero (`Penalties.FridaysMinimum`).
- **Bad claims.** `assign_claimed_days` (`monthly_schedule.py:74-76`) does not check
  its claims before it starts. A bad claim raises `IndexError` or `KeyError` partway
  through, after earlier constraints have been added (`FixedValues.ClaimsFirstError`).
- **Trauma expectation.** `balance_trauma_call` (`monthly_schedule.py:160-184`) counts
  the absence days over the whole horizon, not only over the working days. When the
  resident has no free working day, it raises `UnboundLocalError`
  (`Fairness.TraumaExpectation`).
- **Width of the ±1 window.** The docstring of `set_shift_expectations`
  (`monthly_schedule.py:324`) speaks of bounds of +1 and -1. The window around an
  expectation `x` is `int(x - 1)` to `int(x + 1)`. It is two wide except when `-1 < x < 1`
  and `x != 0`; then it is one wide (`Fairness.WindowWidth`).

## Model

| member | source | states |
|---|---|---|
| CpModel.AllHoldThen | monthly_schedule.py:382-383 | when the first build step did not raise, an assignment satisfies the joined constraints iff it satisfies those of both steps |
| CpModel.FixToHolds | monthly_schedule.py:79 | `model.Add(v == value)` holds exactly when the assignment gives `v` that value |
| CpModel.LinearGuarded | monthly_schedule.py:153-156 | a linear constraint with `OnlyEnforceIf(l)` holds exactly when `l` being true implies the comparison |
| CpModel.AtMostOneOfTwo | monthly_schedule.py:221-223 | `AddAtMostOne(p, q)` holds exactly when `p` and `q` are not both true |
| CpModel.CountTrueIsOne | monthly_schedule.py:428 | exactly one literal of a list is true iff there is an index whose literal is true and every other literal is false |
| CpModel.CountTrueOneHolds | monthly_schedule.py:428 | one direction: a true count of one yields the index of the only true literal |
| CpModel.CountTrueOnlyOne | monthly_schedule.py:428 | other direction: one true literal with all others false gives a true count of one |
| Lists.RemoveFirst | monthly_schedule.py:89 | `list.remove` fails exactly when the value is absent; otherwise it removes the first occurrence, keeps the other elements in order, and leaves the list minus one copy of the value |
| Lists.Sort | monthly_schedule.py:91-92 | the result is sorted and a permutation of the input |
| Lists.SortedUnique | monthly_schedule.py:91-92 | two sorted permutations of each other are equal, so the sorted list is determined by the contents |
| Calendar.NextWeekday | monthly_schedule.py:8-15 | the weekday after day `d` is the next weekday, wrapping from Sunday to Monday |
| Calendar.SameWeekdayApart | monthly_schedule.py:278-279 | two distinct days on the same weekday are at least seven days apart |
| Calendar.WeekdayListCount | monthly_schedule.py:48-49 | the list built by `build_weekday_list(wd)` holds each day in `[wd, n)` that falls on weekday `wd` exactly once, and no other day |
| Calendar.ConcatWeekdaysCount | monthly_schedule.py:59-64 | concatenating the weekday lists `lo .. hi-1` holds each day of the horizon whose weekday is in `[lo, hi)` exactly once, and nothing else |
| Calendar.InitialCalendarAt | monthly_schedule.py:51-66 | a day is once in the initial working days iff it is in the horizon and Monday-Friday, and once in the weekends iff it is Saturday or Sunday |
| Calendar.InitialPartition | monthly_schedule.py:59-66 | every day of the horizon lies in exactly one of the two initial lists, and nothing outside the horizon lies in either |
| Calendar.InitialSplitByWeekday | monthly_schedule.py:59-66 | membership in the initial working days or weekends depends only on the weekday |
| Calendar.InitialWorkingDaysUnsorted | monthly_schedule.py:59-61 | beyond one week, the initial working-day list is grouped by weekday and so is not sorted |
| Calendar.ConcatWeekdaysPrefix | monthly_schedule.py:59-64 | the first weekday's list is a prefix of the concatenation |
| Calendar.InitialWorkingDaysOpening | monthly_schedule.py:59-61 | beyond one week, the initial working days open with the Mondays 0 and 7 |
| Calendar.MoveHoliday | monthly_schedule.py:89-92 | moving a holiday fails exactly when the day is negative or not a working day |
| Calendar.HolidayMembers | monthly_schedule.py:89-92 | after the move, the working days are the old ones without the holiday and the weekends are the old ones with it |
| Calendar.HolidayKeepsPartition | monthly_schedule.py:84-92 | `add_holiday` keeps the two lists a partition of the horizon, moves the day across and leaves both lists sorted |
| Calendar.MoveHolidaysFailStays | monthly_schedule.py:67-69 | when a prefix of the holiday list fails, the whole holiday loop fails |
| Calendar.MoveHolidaysFacts | monthly_schedule.py:67-69 | the holiday loop succeeds iff every holiday is a distinct working day; on success, the partition holds, every holiday is a weekend day and every other day keeps its side |
| Calendar.MoveHolidaysSorted | monthly_schedule.py:67-69 | after at least one holiday, both lists are sorted |
| Calendar.OnWeekday | monthly_schedule.py:199 | `[day for day in working_days if day % 7 == WEDNESDAY]` keeps exactly the listed days on that weekday |
| Registry.StripNofillCounts | monthly_schedule.py:106-111 | stripping the no-fill days removes one copy of a day per occurrence in `nofill` and leaves everything else |
| Registry.StripNofillDisjoint | monthly_schedule.py:106-111 | when no no-fill day is a vacation day, the vacation list is unchanged |
| Registry.StripNofillRemovesSingles | monthly_schedule.py:106-111 | a no-fill day that occurs in the vacation list no more often than in `nofill` is gone afterwards |
| Fairness.Trunc | monthly_schedule.py:333-334 | Python `int()` on a real: the floor for non-negative values and the ceiling for negative ones |
| Fairness.CallRatio | monthly_schedule.py:122-135 | fails with `ZeroDivisionError` exactly when the weighted available days sum to zero; otherwise ratio times that sum equals `days_to_fill` |
| Fairness.ExpectedTotal | monthly_schedule.py:326-331 | a truthy `days_override` is taken as the expectation; without one and without a ratio the lookup fails with `AttributeError` |
| Fairness.Window | monthly_schedule.py:333-334 | the window `int(x-1)`..`int(x+1)` strictly contains `x`, is one or two wide, and is `x-1`..`x+1` for a whole `x` |
| Fairness.WindowFacts | monthly_schedule.py:333-334 | the same facts stated on `Trunc` directly |
| Fairness.WindowWidth | monthly_schedule.py:333-334 | the window is one wide iff `-1 < x < 1` and `x != 0`, and it is `(0, 1)` for `0 < x < 1` |
| Fairness.CountNotIn | monthly_schedule.py:179-180 | the number of working days not in the vacation list is at most the number of working days |
| Fairness.AwayDays | monthly_schedule.py:175-178 | the away-day count is at most the horizon length |
| Fairness.AwayDaysCounts | monthly_schedule.py:175-178 | the away-day count is the number of distinct horizon days in the vacation list, so a repeated vacation day counts once |
| Fairness.TraumaExpectation | monthly_schedule.py:165-184 | fails exactly when no trauma day is available (`ZeroDivisionError`) or the resident has no free working day (`UnboundLocalError`, with the first error taking precedence) |
| Fairness.TraumaShareDoubles | monthly_schedule.py:329-331 | with equal vacation, a trauma resident's expectation is twice a non-trauma resident's; the non-trauma one is weight times available days times ratio |
| Fairness.SumSharesScale | monthly_schedule.py:329-331 | the residents' expectations sum to the ratio times their weighted days over the horizon |
| Fairness.HorizonUnitsSplit | monthly_schedule.py:128-135 | weighted days over the horizon are the ratio denominator plus the no-fill days times the total weight |
| Fairness.SumSharesSplit | monthly_schedule.py:128-135 | the sum of expectations is the ratio times (denominator + no-fill days times total weight) |
| Fairness.ExpectationsTotal | monthly_schedule.py:122-135 | when the ratio exists, the expectations sum to `days_to_fill` plus the ratio times the no-fill days times the total weight |
| Fairness.ExpectationsCoverHorizon | monthly_schedule.py:122-135 | with no no-fill days, the expectations sum to exactly the number of days |
| Fairness.CountNotInNone | monthly_schedule.py:179-180 | with no vacation, every working day is free |
| Fairness.AwayDaysNone | monthly_schedule.py:175-178 | with no vacation, no day is away |
| Fairness.TraumaDaysWithoutVacation | monthly_schedule.py:165-173 | when no trauma resident is on vacation, the available trauma days are the working days times the trauma count |
| Fairness.TraumaEqualShare | monthly_schedule.py:165-184 | with no vacations, each trauma resident expects the working days divided by the number of trauma residents, and with no trauma resident the division fails |
| Fairness.EqualShare | monthly_schedule.py:181-182 | `m` days split over `m * k` available days gives `m / k` each |
| FixedValues.FixShiftsHolds | monthly_schedule.py:365-366 | fixing every shift of a day holds exactly when every such variable has that value |
| FixedValues.FixDaysHolds | monthly_schedule.py:199-201 | fixing every shift of a list of days holds exactly when every such variable has that value |
| FixedValues.WednesdayHolds | monthly_schedule.py:193-201 | the Wednesday rule holds iff an emergency resident works no shift on any working Wednesday (no constraint otherwise) |
| FixedValues.VacationDaysMembers | monthly_schedule.py:363-364 | the days the vacation loop visits are exactly the vacation days inside the horizon |
| FixedValues.VacationRuleStep | monthly_schedule.py:363-366 | one more day of the loop appends that day's zero-fixes exactly when it is a vacation day |
| FixedValues.VacationHolds | monthly_schedule.py:358-366 | the vacation rule holds iff the resident works no shift on any vacation day within the horizon |
| FixedValues.TraumaDayHolds | monthly_schedule.py:203-210 | the day-call rule holds iff a non-trauma resident never works the first shift on a working day |
| FixedValues.ListIndex | monthly_schedule.py:79 | Python list indexing: an index is valid iff `-n <= i < n`, negative indices wrap, and non-negative ones are themselves |
| FixedValues.CellVar | monthly_schedule.py:79 | `schedules[name][day][shift]` is found iff the day index is valid and the shift exists; otherwise `IndexError` comes before `KeyError` |
| FixedValues.ClaimsRuleFailStays | monthly_schedule.py:77-82 | once a claim raises, later claims add nothing |
| FixedValues.ClaimsStatus | monthly_schedule.py:77-82 | the claims pass iff every claimed cell exists, and they add no penalty |
| FixedValues.ClaimsHold | monthly_schedule.py:77-82 | when every claim exists, the claims hold iff every claimed cell is worked |
| FixedValues.ClaimsFirstError | monthly_schedule.py:77-82 | a failing claim list raises the error of its first bad claim and keeps exactly the constraints of the claims before it |
| FixedValues.NofillDayFailStays | monthly_schedule.py:370-371 | once a no-fill cell raises, the rest of that day adds nothing |
| FixedValues.NofillRuleFailStays | monthly_schedule.py:368-371 | once a no-fill day raises, later days add nothing |
| FixedValues.NofillDayHolds | monthly_schedule.py:370-371 | one no-fill day passes iff its index is valid (else `IndexError`), and then holds iff none of its shifts is worked |
| FixedValues.NofillHolds | monthly_schedule.py:368-371 | `cant_book_nofill_days` passes iff every no-fill index is valid, and then holds iff no shift on any no-fill day is worked |
| Adjacency.PostCallDayHolds | monthly_schedule.py:220-223 | the post-call constraints of one day hold iff the last shift of that day is never paired with a shift of the next day |
| Adjacency.PostCallUpToHolds | monthly_schedule.py:218-223 | over the first `k` days, the rule holds iff no non-ignored day has its last shift and a shift of the following day both worked |
| Adjacency.PostCallHolds | monthly_schedule.py:212-223 | the post-call rule holds iff, for every day but the last and except the ignored weekday, last shift and any shift of the next day are not both worked |
| Adjacency.ImplicationDayFailStays | monthly_schedule.py:269-271 | once an implication of a day raises, the rest of that day adds nothing |
| Adjacency.ImplicationUpToFailStays | monthly_schedule.py:267-271 | once a day of the implication loop raises, later days add nothing |
| Adjacency.ImplicationDayHolds | monthly_schedule.py:268-271 | one day passes iff its partner day is inside the horizon (else `IndexError`), and then holds iff its last shift implies every shift of the partner |
| Adjacency.ImplicationUpToHolds | monthly_schedule.py:262-271 | over the first `k` days, the loop passes iff every matching day's partner is in range, and then holds iff each matching day's last shift implies every shift gap days later |
| Adjacency.ImplicationHolds | monthly_schedule.py:262-271 | the same over the whole horizon, with no penalties and `IndexError` as the only error |
| Adjacency.SundayPartnersInRange | monthly_schedule.py:242-250 | Friday-implies-Sunday raises `IndexError` iff the horizon ends on a Friday or a Saturday |
| Adjacency.SaturdayPartnersInRange | monthly_schedule.py:252-260 | Friday-implies-Saturday raises `IndexError` iff the horizon ends on a Friday |
| Penalties.XorOfThree | monthly_schedule.py:235-238 | the true count of a three-literal XOR is the sum of the three literals |
| Penalties.FullDayAtHolds | monthly_schedule.py:231-240 | one day's constraints hold iff the violation flag is set exactly on a split day, the penalty is within 0..16 and at least `half_day_call_penalty` when flagged |
| Penalties.FullDayUpToFacts | monthly_schedule.py:230-240 | over the first `k` days, the rule never fails, any satisfying assignment pays at least 2 per split day, and an assignment with the same shifts pays exactly that |
| Penalties.FullDayMinimum | monthly_schedule.py:225-240 | `prefer_full_day_call` costs at least 2 per day with exactly one of first and last shift, and that minimum is reached without changing any shift |
| Penalties.FridayPairHolds | monthly_schedule.py:282-292 | a raised conflict flag means both Friday nights are worked and the penalty is at least the Friday amount; a cleared assignment satisfies the pair |
| Penalties.FridaysOverSound | monthly_schedule.py:278-293 | across the listed Fridays, each raised conflict flag with a Friday a week later in range means both nights worked and a penalty of at least the amount |
| Penalties.FridaysOverCleared | monthly_schedule.py:278-293 | clearing the conflict flags and penalties satisfies the Friday constraints at cost zero |
| Penalties.FridaysMinimum | monthly_schedule.py:273-293 | the repeated-Friday rule never fails, any raised flag implies two worked Friday nights a week apart, and its penalties can always be zero for the same shifts |
| Penalties.DayVarsMembers | monthly_schedule.py:304 | a day's variables are exactly that block's shifts on that day |
| Penalties.SpanVarsMember | monthly_schedule.py:304 | a variable is in the span iff it is a shift of the block on a day in `[start, end)` |
| Penalties.SpanVarsMembers | monthly_schedule.py:304 | the same for every variable at once |
| Penalties.WeekCallsMembers | monthly_schedule.py:302-304 | a week's calls are exactly the block's shifts on the days `7w .. 7w+6` |
| Penalties.TiersPenalties | monthly_schedule.py:312-316 | the tier loop appends the week's penalty variable once per pass and never fails |
| Penalties.TiersSound | monthly_schedule.py:312-316 | a raised tier flag `i` means at least `i` calls in the week and a penalty of at least `2 i` |
| Penalties.TiersCleared | monthly_schedule.py:312-316 | with every tier flag and the penalty at zero, the tier constraints hold |
| Penalties.TiersObjective | monthly_schedule.py:312-316 | the tiers add the week's penalty to the objective once per pass |
| Penalties.WeekRuleObjective | monthly_schedule.py:305-316 | a week adds its penalty `6 - max` times (zero times when the cap is 6 or more) |
| Penalties.WeekRuleSound | monthly_schedule.py:304-316 | in a satisfying assignment, `exceeds_max` is set iff the week's calls exceed the cap, the penalty is within 0..7, and each raised tier enforces its bound |
| Penalties.WeekRuleCleared | monthly_schedule.py:305-316 | the zero-penalty witness with the same shifts satisfies the week's constraints |
| Penalties.WeekRulePass | monthly_schedule.py:302-316 | a week never fails and its penalties are those of its tiers |
| Penalties.DisperseUpToPass | monthly_schedule.py:301 | the week loop never fails |
| Penalties.DisperseUpToPenalties | monthly_schedule.py:301-316 | `w` weeks add `w` times the number of tiers penalty terms, each the penalty variable of one of those weeks of this block |
| Penalties.DisperseUpToCleared | monthly_schedule.py:301-316 | an assignment satisfying every week satisfies the loop |
| Penalties.DisperseUpToWeek | monthly_schedule.py:301-316 | satisfying the loop means satisfying each of its weeks |
| Penalties.DisperseSound | monthly_schedule.py:295-316 | for each whole week of the horizon, `exceeds_max` is set iff calls exceed the cap, and each raised tier bounds calls and penalty |
| Penalties.DisperseMinimum | monthly_schedule.py:295-316 | `disperse_call` never fails, adds `weeks * tiers` penalty terms, and its penalties can always be zero for the same shifts |
| Bounds.StrictlyBoundedHolds | monthly_schedule.py:138-158 | the emitted constraints hold iff the count lies in `[lower, upper]` and within the domain `0..len(days)`, and each flag is set exactly when the count hits its bound |
| Bounds.StrictlyBoundedCost | monthly_schedule.py:153-158 | in a satisfying assignment the bound adds one for touching the lower bound and one for touching the upper |
| Bounds.WindowCost | monthly_schedule.py:333-334 | inside a window the cost is zero iff the window is two wide and the count is its middle; for a whole expectation that middle is the expectation |
| Bounds.ShiftColumn | monthly_schedule.py:339 | the summed variables are that shift on each listed day, in order |
| Bounds.Worked | monthly_schedule.py:339 | the number of listed days the shift is worked is at most the number of days |
| Bounds.WorkedCounts | monthly_schedule.py:339 | the count is the number of positions of the day list whose day the block works on that shift |
| Bounds.ShiftColumnCounts | monthly_schedule.py:339 | the sum of the column's values is the number of listed days on which the shift is worked |
| Bounds.SetExpectationsHolds | monthly_schedule.py:322-356 | without an expectation the rule fails with `AttributeError` and adds nothing; otherwise it adds four penalty terms and holds iff the night total and the weekend count meet their windows |
| Bounds.TraumaBalanceHolds | monthly_schedule.py:160-191 | a failing expectation adds nothing and raises its error; otherwise two penalty terms, holding iff the working-day first shifts meet the window |
| Compiler.BuildRules | monthly_schedule.py:393-419 | a build list exists iff the classification is `junior` or `senior` |
| Compiler.RulesEmissionFailStays | monthly_schedule.py:382-383 | once a build function raises, the later ones add nothing |
| Compiler.ChainFailStays | monthly_schedule.py:421-422 | once a resident's model raises, later residents add nothing |
| Compiler.ChainParts | monthly_schedule.py:421-422 | in a passing residents loop each resident passed and is satisfied by any assignment satisfying the whole |
| Compiler.BlocksOf | monthly_schedule.py:378 | after the residents loop every resident's name maps to a block |
| Compiler.BlocksOfDomain | monthly_schedule.py:378 | the names in `schedules` afterwards are the old names plus the residents' names |
| Compiler.BlocksOfLast | monthly_schedule.py:378 | a name maps to the block of its last resident in the list |
| Compiler.BlocksOfUnique | monthly_schedule.py:378 | a resident with a unique name owns the block allocated in its turn |
| Compiler.BlockOfName | monthly_schedule.py:378 | the block of a resident's name belongs to a resident at or after it with the same name |
| Compiler.OnShiftExactlyOne | monthly_schedule.py:428 | `AddExactlyOne` holds iff exactly one resident works that shift |
| Compiler.CoverDayHolds | monthly_schedule.py:427-428 | a day's coverage holds iff every shift has exactly one resident |
| Compiler.CoverageHolds | monthly_schedule.py:424-428 | coverage holds iff every shift of every listed day not in `nofill` has exactly one resident |
| Compiler.RulesEmissionParts | monthly_schedule.py:382-383 | in a passing build list every rule passed and is satisfied |
| Compiler.ResidentsEmissionParts | monthly_schedule.py:421-422 | in a passing residents loop the `k`-th resident's model passed, on block `first + k`, and is satisfied |
| Compiler.ResidentEmissionParts | monthly_schedule.py:373-387 | a passing resident model passed its build list, and, for a junior trauma resident, its trauma balance, with both satisfied |
| Compiler.SetupParts | monthly_schedule.py:389-431 | a passing setup has residents and a build list; any satisfying assignment satisfies every resident's model and the coverage |
| Compiler.SetupErrors | monthly_schedule.py:416-422 | no residents raise `AttributeError`, an unknown classification `UnboundLocalError`, both before anything is added |
| Compiler.CoverageGuarantee | monthly_schedule.py:424-428 | in any satisfying assignment of a passing setup, every day of the horizon not in `nofill` has exactly one resident on each shift |
| Compiler.ClaimsGuarantee | monthly_schedule.py:73-82 | every claimed cell of the resident is worked |
| Compiler.ExpectationsGuarantee | monthly_schedule.py:322-356 | a satisfied build list containing `set_shift_expectations` has its expectation computed, the night total within its window and the weekend first shifts within theirs |
| Compiler.VacationGuarantee | monthly_schedule.py:358-366 | no shift is worked on the resident's vacation days |
| Compiler.PostCallGuarantee | monthly_schedule.py:212-223 | the post-call rule holds with the build list's ignored weekday |
| Compiler.FridayGuarantee | monthly_schedule.py:242-260 | a worked Friday night implies every shift of the following Saturday or Sunday |
| Compiler.JuniorResidentGuarantee | monthly_schedule.py:393-404 | a satisfied junior build list gives Wednesdays off, vacation, day-call eligibility, post-call, Friday-Sunday, claims and the expectation windows |
| Compiler.SeniorResidentGuarantee | monthly_schedule.py:406-414 | a satisfied senior build list gives vacation, post-call except after Friday, Friday-Saturday, claims and the expectation windows |
| Compiler.ResidentGuarantee | monthly_schedule.py:385-431 | for each resident of a passing setup, its classification's guarantees hold, and a junior trauma resident's day-call count meets its window |
| Scheduler.ExtendWeekdays | monthly_schedule.py:59-64 | the `extend` loop builds the concatenation of the weekday lists |
| Scheduler.CountAwayDays | monthly_schedule.py:175-178 | the loop counts the away days |
| Scheduler.Solver.constructor | monthly_schedule.py:18-71 | the initial calendar lists (a partition of the horizon), empty registry, model and schedules, and `days_to_fill = num_days - len(nofill)` |
| Scheduler.Solver.AddHoliday | monthly_schedule.py:84-92 | `ValueError` with nothing changed when the day is not a working day; otherwise the day moves to the weekends, both lists sorted, the partition kept |
| Scheduler.Solver.AddHolidays | monthly_schedule.py:67-69 | the holiday loop raises `ValueError` iff some holiday is not a (still) working day; on success the lists are the ones `MoveHolidays` gives; the partition holds either way |
| Scheduler.Solver.AddResidentInfo | monthly_schedule.py:94-120 | appends the resident with no-fill days stripped from its vacation, then recomputes the ratio or raises `ZeroDivisionError` |
| Scheduler.Solver.CalculateCallRatio | monthly_schedule.py:122-135 | the ratio is set to `CallRatio` or `ZeroDivisionError` is raised with the old ratio kept |
| Scheduler.Solver.FixShiftsOf | monthly_schedule.py:365-366 | appends the fixes of every shift of one day |
| Scheduler.Solver.EmergencyWednesdayHalfday | monthly_schedule.py:193-201 | appends exactly the Wednesday rule |
| Scheduler.Solver.CantBookVacationDays | monthly_schedule.py:358-366 | appends exactly the vacation rule |
| Scheduler.Solver.VacationOn | monthly_schedule.py:364-366 | one pass of the vacation loop |
| Scheduler.Solver.NofillOn | monthly_schedule.py:370-371 | one day of `cant_book_nofill_days`, with its error |
| Scheduler.Solver.CantBookNofillDays | monthly_schedule.py:368-371 | appends the no-fill rule and returns its status |
| Scheduler.Solver.TraumaDayCall | monthly_schedule.py:203-210 | appends exactly the day-call rule |
| Scheduler.Solver.ClaimAt | monthly_schedule.py:78-82 | one claim extends the claims prefix, raising when the cell is missing |
| Scheduler.Solver.AssignClaimedDays | monthly_schedule.py:73-82 | appends the claims up to the first bad one, adds no penalty and returns the claims' status |
| Scheduler.Solver.PostCallDays | monthly_schedule.py:212-223 | appends exactly the post-call rule |
| Scheduler.Solver.PostCallOn | monthly_schedule.py:219-223 | one day of the post-call loop |
| Scheduler.Solver.ImplicationOn | monthly_schedule.py:268-271 | one matching day of an implication, with its error |
| Scheduler.Solver.ImplicationLoop | monthly_schedule.py:267-271 | the implication loop up to its first error |
| Scheduler.Solver.FridayImpliesSundayCall | monthly_schedule.py:242-250 | appends the Friday-Sunday implication and returns its status |
| Scheduler.Solver.FridayImpliesSaturdayCall | monthly_schedule.py:252-260 | appends the Friday-Saturday implication and returns its status |
| Scheduler.Solver.MultidayImplicationCall | monthly_schedule.py:262-271 | appends the implication with gap `(second - first) % 7` |
| Scheduler.Solver.PreferFullDayCall | monthly_schedule.py:225-240 | appends the full-day constraints and penalties, never failing |
| Scheduler.Solver.PenalizeMultipleFridays | monthly_schedule.py:273-293 | appends the Friday constraints and penalties, never failing |
| Scheduler.Solver.DisperseCall | monthly_schedule.py:295-316 | appends every week's dispersion constraints and penalties, never failing |
| Scheduler.Solver.DisperseWeek | monthly_schedule.py:302-316 | one week of the dispersion loop |
| Scheduler.Solver.StrictlyBoundedOn | monthly_schedule.py:138-158 | appends the bound's constraints and its two flags |
| Scheduler.Solver.SetShiftExpectations | monthly_schedule.py:322-356 | appends the two windows or raises `AttributeError` |
| Scheduler.Solver.FreeWorkingDays | monthly_schedule.py:179-180 | counts the working days not in the vacation list |
| Scheduler.Solver.TraumaAvailable | monthly_schedule.py:166-173 | counts the free working days of all trauma residents |
| Scheduler.Solver.AssignIfFree | monthly_schedule.py:179-182 | the expectation is bound iff some working day is free |
| Scheduler.Solver.BalanceTraumaCall | monthly_schedule.py:160-191 | appends exactly the trauma balance and returns its error |
| Scheduler.Solver.ApplyRule | monthly_schedule.py:383 | applies one build function |
| Scheduler.Solver.ApplyRuleAt | monthly_schedule.py:382-383 | extends the build-list prefix by one function |
| Scheduler.Solver.ApplyRules | monthly_schedule.py:382-383 | applies the build list up to its first error |
| Scheduler.Solver.AddResidentModel | monthly_schedule.py:373-387 | allocates a fresh block for the name, then appends that resident's emission |
| Scheduler.Solver.ModelResidentAt | monthly_schedule.py:421-422 | one turn of the residents loop |
| Scheduler.Solver.ModelResidents | monthly_schedule.py:421-422 | the residents loop up to its first error; on success every name maps to its block; when resident `i` raises, the residents before it passed and exactly the names of residents `0..i` got blocks |
| Scheduler.Solver.CoverDayOn | monthly_schedule.py:426-428 | one day's `AddExactlyOne` per shift |
| Scheduler.Solver.CoverHorizon | monthly_schedule.py:424-428 | the coverage over every day not in `nofill` |
| Scheduler.Solver.BuildModel | monthly_schedule.py:421-431 | the residents loop, then the coverage, then the objective, stopping at the first error; on a raise, the objective is kept and the blocks are those of the residents up to the raising one |
| Scheduler.Solver.SetupModel | monthly_schedule.py:389-431 | clears the penalties and appends exactly `SetupEmission`; on success schedules every resident and sets the objective to the penalty list; with no residents or an unknown classification it leaves `schedules` and the block count untouched; when a resident raises, only it and the residents before it got blocks |
| Decoder.DecodeRow | monthly_schedule.py:447-448 | one total per shift, each at most the horizon, and a weekend count at most the number of weekend days |
| Decoder.BlockWithinExpectations | monthly_schedule.py:447-448 | a satisfied build list with shift expectations gives a last-shift total and weekend count inside their windows |
| Decoder.ExpectationsFit | monthly_schedule.py:339-356 | satisfied expectation windows put the decoded counts inside them |
| Decoder.RowWithinExpectations | monthly_schedule.py:444-448 | in any satisfying assignment of a passing setup, each resident's own block decodes within its windows |
| Decoder.PrintedRowWithinExpectations | monthly_schedule.py:444-448 | the block printed for a name belongs to the last resident with that name, and decodes within that resident's windows |

## Left out

- The CP-SAT search (`solve`), solver status and objective value are not modelled. A solution is any `Assignment`, and the lemmas quantify over all of them.
- Printing is left out: `print_schedule` formatting, the diagnostics at lines 81, 146 and 336, and the commented-out roster grid. Only the counts at 447-448 are modelled.
- `start_date` and `date.fromisoformat` are left out because no rule reads them.
- Floats are modelled as exact reals, so rounding in `days_to_fill / resident_days_available` and in `* 2/7` is not captured.
- Variable names and descriptors (`f"call_{name}_{day}_{shift}"` and so on) are left out. Variables are identified structurally by block and kind.
- `Scheduler.Solver.constructor`: does not accept `residents_info` or `holidays`. With a non-empty `residents_info`, `__init__` calls `add_resident_info` before `self.nofill` and `self.days_to_fill` exist (lines 40-45), so it always raises `AttributeError`. Holidays are applied afterwards by `Solver.AddHolidays`, the loop at lines 67-69.
- Scheduler.Solver.constructor: requires a non-empty shift list, because `shifts[0]` and `shifts[-1]` are read throughout and Python would raise `IndexError` there.
- Default argument values are left out, because Dafny methods have no defaults. `Solver.constructor` and `Solver.AddResidentInfo` take every argument explicitly, where the source defaults them (lines 18-27 and 94-100: `num_days=28`, `nofill=[]`, `max_shifts_per_week=1`, `extra_friday_penalty=5`, `shifts=['day', 'night']`, `classification='junior'`, `on_vacation_days=[]`, `on_trauma=False`, `on_emergency=False`, `days_override=None`, `claimed_days=[]`).
- Aliasing of the caller's `on_vacation_days` list, and the shared mutable default arguments, are not captured. `list.remove` mutates the caller's list in place; the model works on a copy.
- Duplicate shift names collapse into one key, as in the Python dict. The model does not distinguish them.
- The counter `num_trauma_residents` (lines 167-170) is never used by the source, and is not modelled as solver state.
- `model.Minimize(sum(penalties))` is modelled as the list of objective terms (`objective`). The optimisation itself is left out.
- `cant_book_nofill_days` is modelled (`Solver.CantBookNofillDays`), but neither build list contains it, so `SetupModel` does not apply it, as in the source.
- `multiday_implication` is modelled (`Solver.MultidayImplicationCall`), but neither build list uses it.
- Fairness.CountNotIn: its own contract only bounds the count. The count itself is tied to the source loop by `Solver.FreeWorkingDays`.
- Decoder.DecodeRow: its own contract only states shape and bounds. What the counts mean is stated by the decoder lemmas.
- Fairness.AwayDays: its own contract only bounds the count. `Fairness.AwayDaysCounts` states what it counts, and `Scheduler.CountAwayDays` ties it to the source loop.
- Bounds.Worked: its own contract only bounds the count. `Bounds.WorkedCounts` states what it counts.
