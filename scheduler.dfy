/**
 * `ResidentSchedulingSolver` as an object. Its fields are the solver's state: the two day
 * lists, the registered residents and the call ratio, the map from a resident's name to
 * the block of decision variables `add_resident_model` allocated for it, and the CP model
 * under construction, kept as the list of constraints added to it, the penalty list and
 * the terms of the objective.
 *
 * Each rule method appends exactly what the matching emission function of the compiler
 * describes, and returns the exception it raises, if any; the lemmas about those functions
 * then say what any assignment satisfying the model looks like.
 */
module Scheduler {
  import opened Wrappers
  import opened Lists
  import opened CpModel
  import opened Calendar
  import opened Registry
  import opened Fairness
  import opened FixedValues
  import opened Adjacency
  import opened Penalties
  import opened Bounds
  import opened Compiler

  /** `weekdays.extend(days)` for the weekday lists `lo .. hi - 1`, in that order. */
  method ExtendWeekdays(lo: nat, hi: nat, n: nat) returns (days: seq<nat>)
    requires lo <= hi <= DaysPerWeek
    ensures days == ConcatWeekdays(lo, hi, n)
  {
    days := [];
    var wd := lo;
    while wd < hi
      invariant lo <= wd <= hi
      invariant days == ConcatWeekdays(lo, wd, n)
    {
      days := days + WeekdayList(wd, n);
      wd := wd + 1;
    }
  }

  /** `num_away_days`: `for day in self.days: if day in vacation: count += 1`. */
  method CountAwayDays(n: nat, vacation: seq<int>) returns (away: nat)
    ensures away == AwayDays(n, vacation)
  {
    away := 0;
    for day := 0 to n
      invariant away == AwayDays(day, vacation)
    {
      if day in vacation {
        away := away + 1;
      }
    }
  }

  class Solver {
    const numDays: nat
    const nofill: seq<int>
    const maxShiftsPerWeek: int
    const extraFridayPenalty: int
    const shifts: seq<string>
    const classification: string
    /** `days_to_fill`: the days of the horizon that need cover. */
    const daysToFill: int

    var workingDays: seq<nat>
    var weekendsAndHolidays: seq<nat>
    /** `residents_info`: empty exactly while the attribute does not exist yet. */
    var residents: seq<Resident>
    /** `call_ratio`: `None` until a ratio has been computed. */
    var callRatio: Option<real>
    /** `schedules`: the block of variables of each resident, by name. */
    var schedules: map<string, nat>
    /** The number of variable blocks allocated so far; the next block is fresh. */
    var numBlocks: nat
    /** The constraints added to `self.model`. */
    var constraints: seq<Constraint>
    var penalties: seq<Var>
    /** The terms of `model.Minimize(sum(...))`, once `setup_model` has got that far. */
    var objective: Option<seq<Var>>

    /** The constants are as `__init__` sets them. */
    ghost predicate Valid()
    {
      && |shifts| > 0
      && daysToFill == numDays - |nofill|
    }

    /** Every block in `schedules` was allocated, so the next block is fresh. */
    ghost predicate BlocksAllocated()
      reads this`schedules, this`numBlocks
    {
      forall name :: name in schedules ==> schedules[name] < numBlocks
    }

    /** Every day of the horizon is in exactly one of the two day lists. */
    ghost predicate DaysPartition()
      reads this`workingDays, this`weekendsAndHolidays
    {
      Partition(workingDays, weekendsAndHolidays, numDays)
    }

    /** What the rules read from the solver. */
    function Ctx(): Context
      reads this`workingDays, this`weekendsAndHolidays, this`residents, this`callRatio
    {
      Context(numDays, shifts, maxShiftsPerWeek, extraFridayPenalty, classification,
        workingDays, weekendsAndHolidays, residents, callRatio)
    }

    // ------------------------------------------------------------ __init__ and the registry

    /**
     * `__init__` without residents and holidays: the working days are the Mondays, then
     * the Tuesdays, ..., then the Fridays of the horizon, the weekends the Saturdays and
     * then the Sundays.
     */
    constructor(numDays: nat, nofill: seq<int>, maxShiftsPerWeek: int, extraFridayPenalty: int,
                shifts: seq<string>, classification: string)
      requires |shifts| > 0
      ensures workingDays == InitialWorkingDays(numDays) && weekendsAndHolidays == InitialWeekends(numDays)
      ensures Valid() && DaysPartition() && BlocksAllocated()
      ensures this.numDays == numDays && this.nofill == nofill && this.shifts == shifts
      ensures this.maxShiftsPerWeek == maxShiftsPerWeek && this.extraFridayPenalty == extraFridayPenalty
      ensures this.classification == classification
      ensures residents == [] && callRatio == None && schedules == map[] && numBlocks == 0
      ensures constraints == [] && penalties == [] && objective == None
    {
      this.numDays := numDays;
      this.nofill := nofill;
      this.maxShiftsPerWeek := maxShiftsPerWeek;
      this.extraFridayPenalty := extraFridayPenalty;
      this.shifts := shifts;
      this.classification := classification;
      this.daysToFill := numDays - |nofill|;
      var weekdays := ExtendWeekdays(MONDAY, SATURDAY, numDays);
      var weekends := ExtendWeekdays(SATURDAY, DaysPerWeek, numDays);
      workingDays := weekdays;
      weekendsAndHolidays := weekends;
      InitialPartition(numDays);
      residents := [];
      callRatio := None;
      schedules := map[];
      numBlocks := 0;
      constraints := [];
      penalties := [];
      objective := None;
    }

    /**
     * `add_holiday(day)`: `list.remove` raises `ValueError` when `day` is not a working day,
     * before anything changes; otherwise the day moves to the weekends and both lists are
     * sorted.
     */
    method AddHoliday(day: int) returns (o: Outcome)
      requires DaysPartition()
      modifies this`workingDays, this`weekendsAndHolidays
      ensures DaysPartition()
      ensures o == if MoveHoliday(old(workingDays), old(weekendsAndHolidays), day).Some? then Pass else Fail(ValueError)
      ensures o.Fail? ==> workingDays == old(workingDays) && weekendsAndHolidays == old(weekendsAndHolidays)
      ensures o.Pass? ==> (workingDays, weekendsAndHolidays) == MoveHoliday(old(workingDays), old(weekendsAndHolidays), day).value
      ensures o.Pass? ==> day !in workingDays && day in weekendsAndHolidays
      ensures o.Pass? ==> Sorted(workingDays) && Sorted(weekendsAndHolidays)
    {
      if day < 0 || day !in workingDays {
        return Fail(ValueError);
      }
      var holiday: nat := day;
      var remaining := Sort(RemoveFirst(workingDays, holiday).value);
      var extended := Sort(weekendsAndHolidays + [holiday]);
      HolidayKeepsPartition(workingDays, weekendsAndHolidays, numDays, holiday);
      assert MoveHoliday(workingDays, weekendsAndHolidays, day) == Some((remaining, extended));
      workingDays, weekendsAndHolidays := remaining, extended;
      o := Pass;
    }

    /** The holiday loop of `__init__`: the first failing holiday aborts the construction. */
    method AddHolidays(holidays: seq<int>) returns (o: Outcome)
      requires DaysPartition()
      modifies this`workingDays, this`weekendsAndHolidays
      ensures DaysPartition()
      ensures o == if MoveHolidays(old(workingDays), old(weekendsAndHolidays), holidays).Some? then Pass else Fail(ValueError)
      ensures o.Pass? ==> (workingDays, weekendsAndHolidays) == MoveHolidays(old(workingDays), old(weekendsAndHolidays), holidays).value
    {
      for i := 0 to |holidays|
        invariant DaysPartition()
        invariant MoveHolidays(old(workingDays), old(weekendsAndHolidays), holidays[..i]) == Some((workingDays, weekendsAndHolidays))
      {
        assert holidays[..i + 1][..i] == holidays[..i];
        o := AddHoliday(holidays[i]);
        if o.Fail? {
          MoveHolidaysFailStays(old(workingDays), old(weekendsAndHolidays), holidays, i + 1);
          return;
        }
      }
      assert holidays[..|holidays|] == holidays;
      o := Pass;
    }

    /**
     * `add_resident_info`: the no-fill days are stripped from the vacation list, the
     * resident is appended, and the call ratio is recomputed; a zero denominator raises
     * after the resident was appended and leaves the previous ratio in place.
     */
    method AddResidentInfo(name: string, vacation: seq<int>, onTrauma: bool, onEmergency: bool,
                           daysOverride: Option<int>, claimed: seq<(int, string)>) returns (o: Outcome)
      requires Valid()
      modifies this`residents, this`callRatio
      ensures Valid()
      ensures residents == old(residents) +
        [Resident(name, StripNofill(vacation, nofill), onTrauma, onEmergency, daysOverride, claimed)]
      ensures CallRatio(residents, daysToFill).Success? ==>
        o == Pass && callRatio == Some(CallRatio(residents, daysToFill).value)
      ensures CallRatio(residents, daysToFill).Failure? ==>
        o == Fail(ZeroDivisionError) && callRatio == old(callRatio)
    {
      var kept := vacation;
      for i := 0 to |nofill|
        invariant kept == StripNofill(vacation, nofill[..i])
      {
        assert nofill[..i + 1][..i] == nofill[..i];
        kept := RemoveIfPresent(kept, nofill[i]);
      }
      assert nofill[..|nofill|] == nofill;
      residents := residents + [Resident(name, kept, onTrauma, onEmergency, daysOverride, claimed)];
      o := CalculateCallRatio();
    }

    /** `calculate_call_ratio`: days to fill per weighted person-day, over every resident. */
    method CalculateCallRatio() returns (o: Outcome)
      modifies this`callRatio
      ensures CallRatio(residents, daysToFill).Success? ==>
        o == Pass && callRatio == Some(CallRatio(residents, daysToFill).value)
      ensures CallRatio(residents, daysToFill).Failure? ==>
        o == Fail(ZeroDivisionError) && callRatio == old(callRatio)
    {
      var available := 0;
      for i := 0 to |residents|
        invariant available == DaysAvailable(residents[..i], daysToFill)
      {
        assert residents[..i + 1][..i] == residents[..i];
        var r := residents[i];
        available := available + Weight(r) * (daysToFill - |r.vacation|);
      }
      assert residents[..|residents|] == residents;
      if available == 0 {
        return Fail(ZeroDivisionError);
      }
      callRatio := Some(daysToFill as real / available as real);
      o := Pass;
    }

    // ------------------------------------------------------------ rules that fix variables

    /** `for shift in ss: self.model.Add(x[b][day][shift] == value)`. */
    method FixShiftsOf(b: nat, day: nat, ss: seq<string>, value: int)
      modifies this`constraints
      ensures constraints == old(constraints) + FixShifts(b, day, ss, value)
    {
      for j := 0 to |ss|
        invariant constraints == old(constraints) + FixShifts(b, day, ss[..j], value)
      {
        assert ss[..j + 1][..j] == ss[..j];
        constraints := constraints + [FixTo(X(b, day, ss[j]), value)];
      }
      assert ss[..|ss|] == ss;
    }

    /** `emergency_wednesday_halfday` for the resident owning block `b`. */
    method EmergencyWednesdayHalfday(b: nat, res: Resident)
      modifies this`constraints
      ensures constraints == old(constraints) + WednesdayRule(b, res, workingDays, shifts)
    {
      if res.onEmergency {
        var wednesdays := OnWeekday(workingDays, WEDNESDAY);
        for i := 0 to |wednesdays|
          invariant constraints == old(constraints) + FixDays(b, wednesdays[..i], shifts, 0)
        {
          assert wednesdays[..i + 1][..i] == wednesdays[..i];
          FixShiftsOf(b, wednesdays[i], shifts, 0);
        }
        assert wednesdays[..|wednesdays|] == wednesdays;
      }
    }

    /** `cant_book_vacation_days`: every shift of a vacation day of the horizon is fixed to 0. */
    method CantBookVacationDays(b: nat, res: Resident)
      modifies this`constraints
      ensures constraints == old(constraints) + VacationRule(b, numDays, res.vacation, shifts)
    {
      var vacation := res.vacation;
      for day := 0 to numDays
        invariant constraints == old(constraints) + VacationRule(b, day, vacation, shifts)
      {
        VacationRuleStep(b, day, vacation, shifts);
        VacationOn(b, day, vacation);
      }
    }

    /** One pass of the loop of `cant_book_vacation_days`: the day's shifts when it is a vacation day. */
    method VacationOn(b: nat, day: nat, vacation: seq<int>)
      modifies this`constraints
      ensures constraints == old(constraints) + (if day in vacation then FixShifts(b, day, shifts, 0) else [])
    {
      if day in vacation {
        FixShiftsOf(b, day, shifts, 0);
      } else {
        assert constraints == constraints + [];
      }
    }

    /** The shifts of one day of `cant_book_nofill_days`: each cell is fixed to 0, or the lookup raises. */
    method NofillOn(b: nat, day: int) returns (o: Outcome)
      modifies this`constraints
      ensures constraints == old(constraints) + NofillDay(b, numDays, shifts, day, shifts).cs
      ensures o == NofillDay(b, numDays, shifts, day, shifts).status
    {
      for j := 0 to |shifts|
        invariant NofillDay(b, numDays, shifts, day, shifts[..j]).status == Pass
        invariant constraints == old(constraints) + NofillDay(b, numDays, shifts, day, shifts[..j]).cs
      {
        assert shifts[..j + 1][..j] == shifts[..j];
        var cell := CellVar(b, numDays, shifts, day, shifts[j]);
        if cell.Failure? {
          NofillDayFailStays(b, numDays, shifts, day, shifts, j + 1);
          return Fail(cell.error);
        }
        constraints := constraints + [FixTo(cell.value, 0)];
      }
      assert shifts[..|shifts|] == shifts;
      o := Pass;
    }

    /** `cant_book_nofill_days`: every shift of every no-fill day is fixed to 0; no build list calls it. */
    method CantBookNofillDays(b: nat) returns (o: Outcome)
      modifies this`constraints
      ensures constraints == old(constraints) + NofillRule(b, numDays, shifts, nofill).cs
      ensures o == NofillRule(b, numDays, shifts, nofill).status
    {
      for i := 0 to |nofill|
        invariant NofillRule(b, numDays, shifts, nofill[..i]).status == Pass
        invariant constraints == old(constraints) + NofillRule(b, numDays, shifts, nofill[..i]).cs
      {
        assert nofill[..i + 1][..i] == nofill[..i];
        o := NofillOn(b, nofill[i]);
        if o.Fail? {
          NofillRuleFailStays(b, numDays, shifts, nofill, i + 1);
          return;
        }
      }
      assert nofill[..|nofill|] == nofill;
      o := Pass;
    }

    /** `trauma_day_call`: a resident off trauma gets no first shift on a working day. */
    method TraumaDayCall(b: nat, res: Resident)
      requires |shifts| > 0
      modifies this`constraints
      ensures constraints == old(constraints) + TraumaDayRule(b, res, workingDays, shifts)
    {
      if !res.onTrauma {
        for i := 0 to |workingDays|
          invariant constraints == old(constraints) + FixDays(b, workingDays[..i], [shifts[0]], 0)
        {
          assert workingDays[..i + 1][..i] == workingDays[..i];
          assert FixShifts(b, workingDays[i], [shifts[0]], 0) == [FixTo(X(b, workingDays[i], shifts[0]), 0)];
          constraints := constraints + [FixTo(X(b, workingDays[i], shifts[0]), 0)];
        }
        assert workingDays[..|workingDays|] == workingDays;
      }
    }

    /** One pass of `assign_claimed_days`: the cell of `claims[i]` is fixed to 1, or the lookup raises. */
    method ClaimAt(b: nat, claims: seq<(int, string)>, i: nat, ghost cs: seq<Constraint>) returns (o: Outcome)
      requires i < |claims|
      requires ClaimsRule(b, numDays, shifts, claims[..i]).status == Pass
      requires constraints == cs + ClaimsRule(b, numDays, shifts, claims[..i]).cs
      modifies this`constraints
      ensures constraints == cs + ClaimsRule(b, numDays, shifts, claims[..i + 1]).cs
      ensures o == ClaimsRule(b, numDays, shifts, claims[..i + 1]).status
    {
      assert claims[..i + 1][..i] == claims[..i];
      assert Last(claims[..i + 1]) == claims[i];
      var cell := CellVar(b, numDays, shifts, claims[i].0, claims[i].1);
      if cell.Failure? {
        return Fail(cell.error);
      }
      constraints := constraints + [FixTo(cell.value, 1)];
      o := Pass;
    }

    /** `assign_claimed_days`: each claim's cell is fixed to 1; a bad lookup raises. */
    method AssignClaimedDays(b: nat, res: Resident) returns (o: Outcome)
      modifies this`constraints
      ensures constraints == old(constraints) + ClaimsRule(b, numDays, shifts, res.claimed).cs
      ensures ClaimsRule(b, numDays, shifts, res.claimed).ps == []
      ensures o == ClaimsRule(b, numDays, shifts, res.claimed).status
    {
      ClaimsStatus(b, numDays, shifts, res.claimed);
      var claims := res.claimed;
      o := Pass;
      for i := 0 to |claims|
        invariant ClaimsRule(b, numDays, shifts, claims[..i]).status == Pass && o == Pass
        invariant constraints == old(constraints) + ClaimsRule(b, numDays, shifts, claims[..i]).cs
      {
        o := ClaimAt(b, claims, i, old(constraints));
        if o.Fail? {
          ClaimsRuleFailStays(b, numDays, shifts, claims, i + 1);
          return;
        }
      }
      assert claims[..|claims|] == claims;
    }

    // ------------------------------------------------------------ rules over consecutive days

    /** `post_call_days(resident, ignore)` over `range(num_days - 1)`. */
    method PostCallDays(b: nat, ignore: Option<nat>)
      requires |shifts| > 0
      modifies this`constraints
      ensures constraints == old(constraints) + PostCallRule(b, numDays, shifts, ignore)
    {
      for day := 0 to if numDays == 0 then 0 else numDays - 1
        invariant constraints == old(constraints) + PostCallUpTo(b, day, shifts, ignore)
      {
        if ignore != Some(WeekdayOf(day)) {
          PostCallOn(b, day);
        }
      }
    }

    /** The inner loop of `post_call_days`: a last shift on `day` excludes every shift the day after. */
    method PostCallOn(b: nat, day: nat)
      requires |shifts| > 0
      modifies this`constraints
      ensures constraints == old(constraints) + PostCallDay(b, day, Last(shifts), shifts)
    {
      var last := Last(shifts);
      for j := 0 to |shifts|
        invariant constraints == old(constraints) + PostCallDay(b, day, last, shifts[..j])
      {
        assert shifts[..j + 1][..j] == shifts[..j];
        constraints := constraints + [AtMostOne([Pos(X(b, day, last)), Pos(X(b, day + 1, shifts[j]))])];
      }
      assert shifts[..|shifts|] == shifts;
    }

    /** The inner loop of the implication rules on one day: its last shift implies every shift `gap` days later. */
    method ImplicationOn(b: nat, day: nat, gap: nat) returns (o: Outcome)
      requires |shifts| > 0
      modifies this`constraints
      ensures constraints == old(constraints) + ImplicationDay(b, numDays, Last(shifts), day, gap, shifts).cs
      ensures ImplicationDay(b, numDays, Last(shifts), day, gap, shifts).ps == []
      ensures o == ImplicationDay(b, numDays, Last(shifts), day, gap, shifts).status
    {
      var last := Last(shifts);
      for j := 0 to |shifts|
        invariant ImplicationDay(b, numDays, last, day, gap, shifts[..j]).status == Pass
        invariant ImplicationDay(b, numDays, last, day, gap, shifts[..j]).ps == []
        invariant constraints == old(constraints) + ImplicationDay(b, numDays, last, day, gap, shifts[..j]).cs
      {
        assert shifts[..j + 1][..j] == shifts[..j];
        if day + gap >= numDays {
          ImplicationDayFailStays(b, numDays, last, day, gap, shifts, j + 1);
          return Fail(IndexError);
        }
        constraints := constraints + [Implication(Pos(X(b, day, last)), Pos(X(b, day + gap, shifts[j])))];
      }
      assert shifts[..|shifts|] == shifts;
      o := Pass;
    }

    /** The loop shared by the implication rules: a last shift on weekday `first` implies every shift `gap` days later. */
    method ImplicationLoop(b: nat, first: int, gap: nat) returns (o: Outcome)
      requires |shifts| > 0
      modifies this`constraints
      ensures constraints == old(constraints) + ImplicationRule(b, numDays, shifts, first, gap).cs
      ensures ImplicationRule(b, numDays, shifts, first, gap).ps == []
      ensures o == ImplicationRule(b, numDays, shifts, first, gap).status
    {
      for day := 0 to numDays
        invariant ImplicationUpTo(b, numDays, shifts, first, gap, day).status == Pass
        invariant ImplicationUpTo(b, numDays, shifts, first, gap, day).ps == []
        invariant constraints == old(constraints) + ImplicationUpTo(b, numDays, shifts, first, gap, day).cs
      {
        if WeekdayOf(day) == first {
          o := ImplicationOn(b, day, gap);
          if o.Fail? {
            ImplicationUpToFailStays(b, numDays, shifts, first, gap, day + 1, numDays);
            return;
          }
        }
      }
      o := Pass;
    }

    /** `friday_implies_sunday`: a Friday last shift implies every shift two days later. */
    method FridayImpliesSundayCall(b: nat) returns (o: Outcome)
      requires |shifts| > 0
      modifies this`constraints
      ensures constraints == old(constraints) + FridayImpliesSunday(b, numDays, shifts).cs
      ensures FridayImpliesSunday(b, numDays, shifts).ps == []
      ensures o == FridayImpliesSunday(b, numDays, shifts).status
    {
      o := ImplicationLoop(b, FRIDAY, 2);
    }

    /** `friday_implies_saturday`: a Friday last shift implies every shift of the next day. */
    method FridayImpliesSaturdayCall(b: nat) returns (o: Outcome)
      requires |shifts| > 0
      modifies this`constraints
      ensures constraints == old(constraints) + FridayImpliesSaturday(b, numDays, shifts).cs
      ensures FridayImpliesSaturday(b, numDays, shifts).ps == []
      ensures o == FridayImpliesSaturday(b, numDays, shifts).status
    {
      o := ImplicationLoop(b, FRIDAY, 1);
    }

    /** `multiday_implication(first, second)`, which neither build list calls. */
    method MultidayImplicationCall(b: nat, first: int, second: int) returns (o: Outcome)
      requires |shifts| > 0
      modifies this`constraints
      ensures constraints == old(constraints) + MultidayImplication(b, numDays, shifts, first, second).cs
      ensures o == MultidayImplication(b, numDays, shifts, first, second).status
    {
      o := ImplicationLoop(b, first, (second - first) % DaysPerWeek);
    }

    // ------------------------------------------------------------ rules with penalties

    /** `prefer_full_day_call`: a flag and a penalty per day, the penalty appended each day. */
    method PreferFullDayCall(b: nat)
      requires |shifts| > 0
      modifies this`constraints, this`penalties
      ensures constraints == old(constraints) + FullDayUpTo(b, numDays, shifts).cs
      ensures penalties == old(penalties) + FullDayUpTo(b, numDays, shifts).ps
      ensures FullDayUpTo(b, numDays, shifts).status == Pass
    {
      for day := 0 to numDays
        invariant FullDayUpTo(b, day, shifts).status == Pass
        invariant constraints == old(constraints) + FullDayUpTo(b, day, shifts).cs
        invariant penalties == old(penalties) + FullDayUpTo(b, day, shifts).ps
      {
        var e := FullDayAt(b, day, shifts[0], Last(shifts));
        constraints := constraints + e.cs;
        penalties := penalties + e.ps;
      }
    }

    /** `penalize_multiple_fridays`: a flag and a penalty per Friday whose next Friday is in the horizon. */
    method PenalizeMultipleFridays(b: nat)
      requires |shifts| > 0
      modifies this`constraints, this`penalties
      ensures constraints == old(constraints) + FridaysRule(b, numDays, shifts, extraFridayPenalty).cs
      ensures penalties == old(penalties) + FridaysRule(b, numDays, shifts, extraFridayPenalty).ps
      ensures FridaysRule(b, numDays, shifts, extraFridayPenalty).status == Pass
    {
      var last := Last(shifts);
      var fridays := OnWeekday(Days(numDays), FRIDAY);
      for i := 0 to |fridays|
        invariant FridaysOver(b, numDays, last, extraFridayPenalty, fridays[..i]).status == Pass
        invariant constraints == old(constraints) + FridaysOver(b, numDays, last, extraFridayPenalty, fridays[..i]).cs
        invariant penalties == old(penalties) + FridaysOver(b, numDays, last, extraFridayPenalty, fridays[..i]).ps
      {
        assert fridays[..i + 1][..i] == fridays[..i];
        var friday := fridays[i];
        if friday + DaysPerWeek < numDays {
          var e := FridayPair(b, friday, last, extraFridayPenalty);
          constraints := constraints + e.cs;
          penalties := penalties + e.ps;
        }
      }
      assert fridays[..|fridays|] == fridays;
    }

    /** `disperse_call`: per whole week, the flag, the tiers, and the week's penalty once per tier. */
    method DisperseCall(b: nat)
      modifies this`constraints, this`penalties
      ensures constraints == old(constraints) + DisperseRule(b, numDays, shifts, maxShiftsPerWeek).cs
      ensures penalties == old(penalties) + DisperseRule(b, numDays, shifts, maxShiftsPerWeek).ps
      ensures DisperseRule(b, numDays, shifts, maxShiftsPerWeek).status == Pass
    {
      ghost var e := Done([]);
      for week := 0 to numDays / DaysPerWeek
        invariant e == DisperseUpTo(b, week, shifts, maxShiftsPerWeek) && e.status == Pass
        invariant constraints == old(constraints) + e.cs
        invariant penalties == old(penalties) + e.ps
      {
        DisperseWeek(b, week);
        e := Then(e, WeekRule(b, week, shifts, maxShiftsPerWeek));
      }
    }

    /** One pass of the outer loop of `disperse_call`: the week's flag, then its tiers. */
    method DisperseWeek(b: nat, week: nat)
      modifies this`constraints, this`penalties
      ensures constraints == old(constraints) + WeekRule(b, week, shifts, maxShiftsPerWeek).cs
      ensures penalties == old(penalties) + WeekRule(b, week, shifts, maxShiftsPerWeek).ps
      ensures WeekRule(b, week, shifts, maxShiftsPerWeek).status == Pass
    {
      var calls := WeekCalls(b, week, shifts);
      constraints := constraints + WeekHead(b, week, calls, maxShiftsPerWeek);
      ghost var cs0, ps0 := constraints, penalties;
      var lo := maxShiftsPerWeek + 1;
      var i := lo;
      while i < 7
        invariant lo <= i && (i <= 7 || i == lo)
        invariant Tiers(b, week, calls, lo, i).status == Pass
        invariant constraints == cs0 + Tiers(b, week, calls, lo, i).cs
        invariant penalties == ps0 + Tiers(b, week, calls, lo, i).ps
        decreases 7 - i
      {
        constraints := constraints + Tier(b, week, calls, i);
        penalties := penalties + [Aux(b, WeeklyPenalty(week))];
        i := i + 1;
      }
      assert Tiers(b, week, calls, lo, i) == Tiers(b, week, calls, lo, 7);
    }

    /** `strictly_bounded(resident, sum(counted), lower, upper)`. */
    method StrictlyBoundedOn(b: nat, bound: Bound, counted: seq<Var>, lower: int, upper: int)
      modifies this`constraints, this`penalties
      ensures constraints == old(constraints) + StrictlyBounded(b, bound, counted, lower, upper, numDays).cs
      ensures penalties == old(penalties) + StrictlyBounded(b, bound, counted, lower, upper, numDays).ps
    {
      var e := StrictlyBounded(b, bound, counted, lower, upper, numDays);
      constraints := constraints + e.cs;
      penalties := penalties + e.ps;
    }

    /** `set_shift_expectations`: the total and weekend bounds, or `AttributeError` without a ratio. */
    method SetShiftExpectations(b: nat, res: Resident) returns (o: Outcome)
      requires |shifts| > 0
      modifies this`constraints, this`penalties
      ensures constraints == old(constraints) + SetExpectations(b, res, numDays, callRatio, shifts, weekendsAndHolidays).cs
      ensures penalties == old(penalties) + SetExpectations(b, res, numDays, callRatio, shifts, weekendsAndHolidays).ps
      ensures o == SetExpectations(b, res, numDays, callRatio, shifts, weekendsAndHolidays).status
    {
      var expected := ExpectedTotal(res, numDays, callRatio);
      if expected.Failure? {
        return Fail(expected.error);
      }
      var x := expected.value;
      var total := Window(x);
      StrictlyBoundedOn(b, TotalShifts, ShiftColumn(b, Days(numDays), Last(shifts)), total.0, total.1);
      var weekend := Window(ExpectedWeekend(x));
      StrictlyBoundedOn(b, WeekendShift, ShiftColumn(b, weekendsAndHolidays, shifts[0]), weekend.0, weekend.1);
      o := Pass;
    }

    /** `for day in self.working_days: if day not in vacation: count += 1`. */
    method FreeWorkingDays(vacation: seq<int>) returns (count: nat)
      ensures count == CountNotIn(workingDays, vacation)
    {
      count := 0;
      for j := 0 to |workingDays|
        invariant count == CountNotIn(workingDays[..j], vacation)
      {
        assert workingDays[..j + 1][..j] == workingDays[..j];
        if workingDays[j] !in vacation {
          count := count + 1;
        }
      }
      assert workingDays[..|workingDays|] == workingDays;
    }

    /** The counting loop of `balance_trauma_call` over the trauma residents. */
    method TraumaAvailable() returns (available: nat)
      ensures available == TraumaDaysAvailable(residents, workingDays)
    {
      available := 0;
      for i := 0 to |residents|
        invariant available == TraumaDaysAvailable(residents[..i], workingDays)
      {
        assert residents[..i + 1][..i] == residents[..i];
        if residents[i].onTrauma {
          var free := FreeWorkingDays(residents[i].vacation);
          available := available + free;
        }
      }
      assert residents[..|residents|] == residents;
    }

    /**
     * The last loop of `balance_trauma_call`: `expected_day_shifts` is bound to `value` on
     * each working day off the vacation list, and stays unbound when there is none.
     */
    method AssignIfFree(vacation: seq<int>, value: real) returns (isBound: bool, expected: real)
      ensures isBound <==> CountNotIn(workingDays, vacation) > 0
      ensures isBound ==> expected == value
    {
      expected := 0.0;
      isBound := false;
      for j := 0 to |workingDays|
        invariant isBound <==> CountNotIn(workingDays[..j], vacation) > 0
        invariant isBound ==> expected == value
      {
        assert workingDays[..j + 1][..j] == workingDays[..j];
        if workingDays[j] !in vacation {
          expected := value;
          isBound := true;
        }
      }
      assert workingDays[..|workingDays|] == workingDays;
    }

    /**
     * `balance_trauma_call`: the counters are accumulated in loops, then the first shift
     * over the working days is bounded around the expectation.
     */
    method BalanceTraumaCall(b: nat, res: Resident) returns (o: Outcome)
      requires |shifts| > 0
      modifies this`constraints, this`penalties
      ensures constraints == old(constraints) + TraumaBalance(b, residents, res, workingDays, numDays, shifts).cs
      ensures penalties == old(penalties) + TraumaBalance(b, residents, res, workingDays, numDays, shifts).ps
      ensures o == TraumaBalance(b, residents, res, workingDays, numDays, shifts).status
    {
      var numTraumaDays := |workingDays|;
      var available := TraumaAvailable();
      if available == 0 {
        return Fail(ZeroDivisionError);
      }
      var ratio := numTraumaDays as real / available as real;
      var away := CountAwayDays(numDays, res.vacation);
      var isBound, expected := AssignIfFree(res.vacation, (numTraumaDays - away) as real * ratio);
      if !isBound {
        return Fail(UnboundLocalError);
      }
      assert CountNotIn(workingDays, res.vacation) > 0;
      assert expected == ExpectedDayShifts(|workingDays|, away, available);
      assert TraumaExpectation(residents, workingDays, numDays, res) == Success(expected);
      var window := Window(expected);
      StrictlyBoundedOn(b, TraumaShifts, ShiftColumn(b, workingDays, shifts[0]), window.0, window.1);
      o := Pass;
    }

    // ------------------------------------------------------------ add_resident_model and setup_model

    /** One build function applied to the resident owning block `b`. */
    method ApplyRule(b: nat, res: Resident, rule: Rule, ghost c: Context) returns (o: Outcome)
      requires |shifts| > 0 && c == Ctx()
      modifies this`constraints, this`penalties
      ensures constraints == old(constraints) + RuleEmission(c, b, res, rule).cs
      ensures penalties == old(penalties) + RuleEmission(c, b, res, rule).ps
      ensures o == RuleEmission(c, b, res, rule).status
    {
      match rule
      case EmergencyWednesday =>
        EmergencyWednesdayHalfday(b, res);
        o := Pass;
      case CantBookVacation =>
        CantBookVacationDays(b, res);
        o := Pass;
      case TraumaDayCall =>
        TraumaDayCall(b, res);
        o := Pass;
      case PostCall(ignore) =>
        PostCallDays(b, ignore);
        o := Pass;
      case PreferFullDay =>
        PreferFullDayCall(b);
        o := Pass;
      case MultipleFridays =>
        PenalizeMultipleFridays(b);
        o := Pass;
      case DisperseCall =>
        DisperseCall(b);
        o := Pass;
      case ShiftExpectations =>
        o := SetShiftExpectations(b, res);
      case FridaySunday =>
        o := FridayImpliesSundayCall(b);
      case FridaySaturday =>
        o := FridayImpliesSaturdayCall(b);
      case ClaimedDays =>
        o := AssignClaimedDays(b, res);
    }

    /** One pass of the build-function loop: `rules[k]` runs after the rules before it went through. */
    method ApplyRuleAt(b: nat, res: Resident, rules: seq<Rule>, k: nat, ghost c: Context, ghost cs: seq<Constraint>, ghost ps: seq<Var>)
        returns (o: Outcome)
      requires |shifts| > 0 && c == Ctx() && k < |rules|
      requires RulesEmission(c, b, res, rules[..k]).status == Pass
      requires constraints == cs + RulesEmission(c, b, res, rules[..k]).cs
      requires penalties == ps + RulesEmission(c, b, res, rules[..k]).ps
      modifies this`constraints, this`penalties
      ensures constraints == cs + RulesEmission(c, b, res, rules[..k + 1]).cs
      ensures penalties == ps + RulesEmission(c, b, res, rules[..k + 1]).ps
      ensures o == RulesEmission(c, b, res, rules[..k + 1]).status
    {
      assert rules[..k + 1][..k] == rules[..k];
      assert Last(rules[..k + 1]) == rules[k];
      o := ApplyRule(b, res, rules[k], c);
    }

    /** The build functions in order, up to the first that raises. */
    method ApplyRules(b: nat, res: Resident, rules: seq<Rule>, ghost c: Context) returns (o: Outcome)
      requires |shifts| > 0 && c == Ctx()
      modifies this`constraints, this`penalties
      ensures constraints == old(constraints) + RulesEmission(c, b, res, rules).cs
      ensures penalties == old(penalties) + RulesEmission(c, b, res, rules).ps
      ensures o == RulesEmission(c, b, res, rules).status
    {
      o := Pass;
      for k := 0 to |rules|
        invariant RulesEmission(c, b, res, rules[..k]).status == Pass && o == Pass
        invariant constraints == old(constraints) + RulesEmission(c, b, res, rules[..k]).cs
        invariant penalties == old(penalties) + RulesEmission(c, b, res, rules[..k]).ps
      {
        o := ApplyRuleAt(b, res, rules, k, c, old(constraints), old(penalties));
        if o.Fail? {
          RulesEmissionFailStays(c, b, res, rules, k + 1);
          return;
        }
      }
      assert rules[..|rules|] == rules;
    }

    /**
     * `add_resident_model`: a fresh block of variables for the resident's name, the build
     * functions in order up to the first that raises, then the trauma balance for junior
     * trauma residents.
     */
    method AddResidentModel(res: Resident, rules: seq<Rule>, ghost c: Context, ghost e: Emission) returns (o: Outcome)
      requires Valid() && BlocksAllocated() && c == Ctx() && e == ResidentEmission(c, numBlocks, res, rules)
      modifies this`schedules, this`numBlocks, this`constraints, this`penalties
      ensures BlocksAllocated()
      ensures numBlocks == old(numBlocks) + 1 && schedules == old(schedules)[res.name := old(numBlocks)]
      ensures constraints == old(constraints) + e.cs
      ensures penalties == old(penalties) + e.ps
      ensures o == e.status
    {
      var b := numBlocks;
      schedules := schedules[res.name := b];
      numBlocks := numBlocks + 1;
      o := ApplyRules(b, res, rules, c);
      if o.Pass? && res.onTrauma && classification == "junior" {
        o := BalanceTraumaCall(b, res);
      }
    }

    /**
     * One pass of the residents loop of `setup_model`: the next resident is modelled in
     * the next block after the emissions `prefix` went through.
     */
    method ModelResidentAt(i: nat, rules: seq<Rule>, ghost c: Context, ghost prefix: Emission, ghost e: Emission,
                           ghost cs: seq<Constraint>, ghost ps: seq<Var>)
        returns (o: Outcome)
      requires Valid() && BlocksAllocated() && c == Ctx()
      requires i < |residents| && e == ResidentEmission(c, numBlocks, residents[i], rules)
      requires prefix.status == Pass && constraints == cs + prefix.cs && penalties == ps + prefix.ps
      modifies this`schedules, this`numBlocks, this`constraints, this`penalties
      ensures BlocksAllocated()
      ensures numBlocks == old(numBlocks) + 1 && schedules == old(schedules)[residents[i].name := old(numBlocks)]
      ensures constraints == cs + Then(prefix, e).cs && penalties == ps + Then(prefix, e).ps
      ensures o == Then(prefix, e).status
    {
      o := AddResidentModel(residents[i], rules, c, e);
    }

    /** The residents loop of `setup_model`: each is modelled in order, up to the first that raises. */
    method ModelResidents(rules: seq<Rule>, ghost c: Context) returns (o: Outcome)
      requires Valid() && BlocksAllocated() && c == Ctx()
      modifies this`schedules, this`numBlocks, this`constraints, this`penalties
      ensures BlocksAllocated()
      ensures constraints == old(constraints) + ResidentsEmission(c, rules, residents, old(numBlocks)).cs
      ensures penalties == old(penalties) + ResidentsEmission(c, rules, residents, old(numBlocks)).ps
      ensures o == ResidentsEmission(c, rules, residents, old(numBlocks)).status
      ensures o.Pass? ==>
        schedules == BlocksOf(old(schedules), residents, old(numBlocks)) && numBlocks == old(numBlocks) + |residents|
      ensures o.Fail? ==> exists i :: RaisedAt(c, rules, residents, old(schedules), old(numBlocks), i, schedules, numBlocks)
    {
      ghost var es := ResidentEmissions(c, rules, residents, old(numBlocks));
      o := Pass;
      for i := 0 to |residents|
        invariant BlocksAllocated()
        invariant numBlocks == old(numBlocks) + i && schedules == BlocksOf(old(schedules), residents[..i], old(numBlocks))
        invariant Chain(es[..i]).status == Pass && o == Pass
        invariant constraints == old(constraints) + Chain(es[..i]).cs
        invariant penalties == old(penalties) + Chain(es[..i]).ps
      {
        ChainStep(es, i);
        ghost var before, first := schedules, old(numBlocks);
        ghost var e := ResidentEmission(c, first + i, residents[i], rules);
        assert es[i] == e;
        o := ModelResidentAt(i, rules, c, Chain(es[..i]), e, old(constraints), old(penalties));
        BlocksOfNext(old(schedules), residents, first, i, before, schedules);
        if o.Fail? {
          ChainFailStays(es, i + 1);
          assert ResidentEmissions(c, rules, residents[..i], first) == es[..i];
          assert RaisedAt(c, rules, residents, old(schedules), first, i, schedules, numBlocks);
          return;
        }
      }
      assert residents[..|residents|] == residents;
      assert es[..|es|] == es;
    }

    /** The inner loop of the cover constraints: every shift of `day` gets exactly one resident. */
    method CoverDayOn(day: nat)
      requires forall i :: 0 <= i < |residents| ==> residents[i].name in schedules
      modifies this`constraints
      ensures constraints == old(constraints) + CoverDay(schedules, residents, day, shifts)
    {
      for j := 0 to |shifts|
        invariant constraints == old(constraints) + CoverDay(schedules, residents, day, shifts[..j])
      {
        assert shifts[..j + 1][..j] == shifts[..j];
        constraints := constraints + [ExactlyOne(OnShift(schedules, residents, day, shifts[j]))];
      }
      assert shifts[..|shifts|] == shifts;
    }

    /** "There must be a resident on shift" for every day of the horizon outside `nofill`. */
    method CoverHorizon()
      requires forall i :: 0 <= i < |residents| ==> residents[i].name in schedules
      modifies this`constraints
      ensures constraints == old(constraints) + Coverage(schedules, residents, Days(numDays), nofill, shifts)
    {
      for day := 0 to numDays
        invariant constraints == old(constraints) + Coverage(schedules, residents, Days(numDays)[..day], nofill, shifts)
      {
        assert Days(numDays)[..day + 1][..day] == Days(numDays)[..day];
        if day !in nofill {
          CoverDayOn(day);
        }
      }
      assert Days(numDays)[..numDays] == Days(numDays);
    }

    /**
     * The body of `setup_model` once the build list is known: the residents in order, then
     * the cover constraints and the objective, unless a resident raised.
     */
    method BuildModel(rules: seq<Rule>, ghost c: Context) returns (o: Outcome)
      requires Valid() && BlocksAllocated() && c == Ctx()
      modifies this`schedules, this`numBlocks, this`constraints, this`penalties, this`objective
      ensures BlocksAllocated()
      ensures var e := Then(ResidentsEmission(c, rules, residents, old(numBlocks)),
          Done(Coverage(BlocksOf(old(schedules), residents, old(numBlocks)), residents, Days(numDays), nofill, shifts)));
        constraints == old(constraints) + e.cs && penalties == old(penalties) + e.ps && o == e.status
      ensures o.Pass? ==> objective == Some(penalties)
      ensures o.Pass? ==>
        schedules == BlocksOf(old(schedules), residents, old(numBlocks)) && numBlocks == old(numBlocks) + |residents|
      ensures o.Fail? ==> objective == old(objective)
      ensures o.Fail? ==> exists i :: RaisedAt(c, rules, residents, old(schedules), old(numBlocks), i, schedules, numBlocks)
    {
      ghost var r := ResidentsEmission(c, rules, residents, numBlocks);
      ghost var blocks := BlocksOf(schedules, residents, numBlocks);
      o := ModelResidents(rules, c);
      if o.Fail? {
        return;
      }
      ghost var before := constraints;
      CoverHorizon();
      assert constraints == before + Coverage(blocks, residents, Days(numDays), nofill, shifts);
      objective := Some(penalties);
    }

    /**
     * `setup_model`: the penalty list is reset, every registered resident is modelled in
     * order, then every shift of every day outside `nofill` gets exactly one resident and
     * the objective is the sum of the penalties. The first exception stops it.
     */
    method SetupModel() returns (o: Outcome)
      requires Valid() && BlocksAllocated()
      modifies this`schedules, this`numBlocks, this`constraints, this`penalties, this`objective
      ensures BlocksAllocated()
      ensures constraints == old(constraints) + SetupEmission(Ctx(), nofill, old(schedules), old(numBlocks)).cs
      ensures penalties == SetupEmission(Ctx(), nofill, old(schedules), old(numBlocks)).ps
      ensures o == SetupEmission(Ctx(), nofill, old(schedules), old(numBlocks)).status
      ensures o.Pass? ==> objective == Some(penalties)
      ensures o.Pass? ==>
        schedules == BlocksOf(old(schedules), residents, old(numBlocks)) && numBlocks == old(numBlocks) + |residents|
      ensures o.Fail? ==> objective == old(objective)
      ensures |residents| == 0 || BuildRules(classification).None? ==>
        schedules == old(schedules) && numBlocks == old(numBlocks)
      ensures o.Fail? && |residents| > 0 && BuildRules(classification).Some? ==>
        exists i :: RaisedAt(Ctx(), BuildRules(classification).value, residents, old(schedules), old(numBlocks), i,
                             schedules, numBlocks)
    {
      penalties := [];
      if |residents| == 0 {
        return Fail(AttributeError);
      }
      var rules := BuildRules(classification);
      if rules.None? {
        return Fail(UnboundLocalError);
      }
      o := BuildModel(rules.value, Ctx());
    }
  }
}
