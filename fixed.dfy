/**
 * The rules that fix decision variables to a constant: vacation days, the emergency
 * residents' Wednesday half-days, working-day first shifts of residents off trauma,
 * no-fill days, and claimed days. `b` is the resident's variable block.
 */
module FixedValues {
  import opened Wrappers
  import opened CpModel
  import opened Calendar
  import opened Lists
  import opened Registry

  /** `for shift in shifts: model.Add(x[b][day][shift] == value)`. */
  function FixShifts(b: nat, day: nat, shifts: seq<string>, value: int): seq<Constraint>
  {
    if |shifts| == 0 then []
    else FixShifts(b, day, shifts[..|shifts| - 1], value) + [FixTo(X(b, day, Last(shifts)), value)]
  }

  /** `for day in days: for shift in shifts: model.Add(x[b][day][shift] == value)`. */
  function FixDays(b: nat, days: seq<nat>, shifts: seq<string>, value: int): seq<Constraint>
  {
    if |days| == 0 then []
    else FixDays(b, days[..|days| - 1], shifts, value) + FixShifts(b, Last(days), shifts, value)
  }

  lemma {:induction false} FixShiftsHolds(a: Assignment, b: nat, day: nat, shifts: seq<string>, value: int)
    ensures AllHold(a, FixShifts(b, day, shifts, value)) <==>
      forall s :: s in shifts ==> Value(a, X(b, day, s)) == value
    decreases |shifts|
  {
    if |shifts| > 0 {
      var front, s := shifts[..|shifts| - 1], Last(shifts);
      assert shifts == front + [s];
      FixShiftsHolds(a, b, day, front, value);
      AllHoldConcat(a, FixShifts(b, day, front, value), [FixTo(X(b, day, s), value)]);
      AllHoldOne(a, FixTo(X(b, day, s), value));
      FixToHolds(a, X(b, day, s), value);
    }
  }

  /** The constraints fix every listed shift of every listed day, and nothing else. */
  lemma {:induction false} FixDaysHolds(a: Assignment, b: nat, days: seq<nat>, shifts: seq<string>, value: int)
    ensures AllHold(a, FixDays(b, days, shifts, value)) <==>
      forall d, s :: d in days && s in shifts ==> Value(a, X(b, d, s)) == value
    decreases |days|
  {
    if |days| > 0 {
      var front, d := days[..|days| - 1], Last(days);
      assert days == front + [d];
      FixDaysHolds(a, b, front, shifts, value);
      AllHoldConcat(a, FixDays(b, front, shifts, value), FixShifts(b, d, shifts, value));
      FixShiftsHolds(a, b, d, shifts, value);
    }
  }

  // ---------------------------------------------------------------- emergency_wednesday_halfday

  /** An emergency resident works no shift on a working Wednesday. */
  function WednesdayRule(b: nat, res: Resident, working: seq<nat>, shifts: seq<string>): seq<Constraint>
  {
    if res.onEmergency then FixDays(b, OnWeekday(working, WEDNESDAY), shifts, 0) else []
  }

  lemma WednesdayHolds(a: Assignment, b: nat, res: Resident, working: seq<nat>, shifts: seq<string>)
    ensures AllHold(a, WednesdayRule(b, res, working, shifts)) <==>
      (res.onEmergency ==>
        forall d, s :: d in working && d % 7 == WEDNESDAY && s in shifts ==> !a.x(b, d, s))
  {
    FixDaysHolds(a, b, OnWeekday(working, WEDNESDAY), shifts, 0);
  }

  // ---------------------------------------------------------------- cant_book_vacation_days

  /** `[day for day in range(n) if day in vacation]`. */
  function VacationDays(n: nat, vacation: seq<int>): seq<nat>
  {
    if n == 0 then [] else VacationDays(n - 1, vacation) + (if n - 1 in vacation then [n - 1] else [])
  }

  /** The vacation days of `[0, n)` are the days of `vacation` inside the horizon. */
  lemma {:induction false} VacationDaysMembers(n: nat, vacation: seq<int>)
    ensures forall d: nat :: d in VacationDays(n, vacation) <==> d < n && d in vacation
  {
    if n > 0 {
      VacationDaysMembers(n - 1, vacation);
    }
  }

  function VacationRule(b: nat, n: nat, vacation: seq<int>, shifts: seq<string>): seq<Constraint>
  {
    FixDays(b, VacationDays(n, vacation), shifts, 0)
  }

  /** One more day of the horizon adds that day's shifts when it is a vacation day. */
  lemma VacationRuleStep(b: nat, n: nat, vacation: seq<int>, shifts: seq<string>)
    ensures VacationRule(b, n + 1, vacation, shifts) ==
      VacationRule(b, n, vacation, shifts) + (if n in vacation then FixShifts(b, n, shifts, 0) else [])
  {
    var before := VacationDays(n, vacation);
    if n in vacation {
      assert VacationDays(n + 1, vacation) == before + [n];
      assert (before + [n])[..|before|] == before;
      assert Last(before + [n]) == n;
      assert FixDays(b, before + [n], shifts, 0) == FixDays(b, before, shifts, 0) + FixShifts(b, n, shifts, 0);
    } else {
      assert VacationDays(n + 1, vacation) == before + [];
      assert before + [] == before;
    }
  }

  /** No shift is worked on a vacation day of the horizon. */
  lemma VacationHolds(a: Assignment, b: nat, n: nat, vacation: seq<int>, shifts: seq<string>)
    ensures AllHold(a, VacationRule(b, n, vacation, shifts)) <==>
      forall d: nat, s :: d < n && d in vacation && s in shifts ==> !a.x(b, d, s)
  {
    VacationDaysMembers(n, vacation);
    FixDaysHolds(a, b, VacationDays(n, vacation), shifts, 0);
  }

  // ---------------------------------------------------------------- trauma_day_call

  /** A resident off trauma works no first shift on a working day. */
  function TraumaDayRule(b: nat, res: Resident, working: seq<nat>, shifts: seq<string>): seq<Constraint>
    requires |shifts| > 0
  {
    if res.onTrauma then [] else FixDays(b, working, [shifts[0]], 0)
  }

  lemma TraumaDayHolds(a: Assignment, b: nat, res: Resident, working: seq<nat>, shifts: seq<string>)
    requires |shifts| > 0
    ensures AllHold(a, TraumaDayRule(b, res, working, shifts)) <==>
      (!res.onTrauma ==> forall d :: d in working ==> !a.x(b, d, shifts[0]))
  {
    FixDaysHolds(a, b, working, [shifts[0]], 0);
    if !res.onTrauma {
      if forall d :: d in working ==> !a.x(b, d, shifts[0]) {
        forall d, s | d in working && s in [shifts[0]]
          ensures Value(a, X(b, d, s)) == 0
        {
          assert s == shifts[0];
        }
      }
    }
  }

  // ---------------------------------------------------------------- looked-up cells

  /** Python's `lst[i]` on a list of length `n`: negative indices count from the end. */
  function ListIndex(n: nat, i: int): (r: Option<nat>)
    ensures r.Some? <==> -(n as int) <= i < n
    ensures r.Some? ==> r.value < n && r.value % n == i % n
    ensures r.Some? && 0 <= i ==> r.value == i
  {
    if 0 <= i < n then Some(i) else if -(n as int) <= i < 0 then Some(i + n) else None
  }

  /** `schedules[name][day][shift]`: the day index can be out of range, the shift unknown. */
  function CellVar(b: nat, n: nat, shifts: seq<string>, day: int, shift: string): (r: Result<Var>)
    ensures r.Success? <==> ListIndex(n, day).Some? && shift in shifts
    ensures r.Success? ==> r.value == X(b, ListIndex(n, day).value, shift)
    ensures r.Failure? ==> r.error == if ListIndex(n, day).None? then IndexError else KeyError
  {
    match ListIndex(n, day)
    case None => Failure(IndexError)
    case Some(d) => if shift in shifts then Success(X(b, d, shift)) else Failure(KeyError)
  }

  /** `model.Add(schedules[name][day][shift] == value)`, raising on a bad lookup. */
  function FixCell(b: nat, n: nat, shifts: seq<string>, day: int, shift: string, value: int): Emission
  {
    match CellVar(b, n, shifts, day, shift)
    case Failure(e) => Emission([], [], Fail(e))
    case Success(v) => Done([FixTo(v, value)])
  }

  // ---------------------------------------------------------------- assign_claimed_days

  /** `for day, shift in claimed_days: model.Add(schedules[name][day][shift] == 1)`. */
  function ClaimsRule(b: nat, n: nat, shifts: seq<string>, claims: seq<(int, string)>): Emission
  {
    if |claims| == 0 then Done([])
    else
      var c := Last(claims);
      Then(ClaimsRule(b, n, shifts, claims[..|claims| - 1]), FixCell(b, n, shifts, c.0, c.1, 1))
  }

  /** Once a claim raises, the later claims add nothing: the emission is the one at the raise. */
  lemma {:induction false} ClaimsRuleFailStays(b: nat, n: nat, shifts: seq<string>, claims: seq<(int, string)>, j: nat)
    requires j <= |claims| && ClaimsRule(b, n, shifts, claims[..j]).status.Fail?
    ensures ClaimsRule(b, n, shifts, claims) == ClaimsRule(b, n, shifts, claims[..j])
    decreases |claims|
  {
    if j < |claims| {
      var front := claims[..|claims| - 1];
      assert front[..j] == claims[..j];
      ClaimsRuleFailStays(b, n, shifts, front, j);
    } else {
      assert claims[..j] == claims;
    }
  }

  /** Every claim is looked up in range and with a known shift. */
  ghost predicate ClaimsFound(n: nat, shifts: seq<string>, claims: seq<(int, string)>)
  {
    forall i :: 0 <= i < |claims| ==> ListIndex(n, claims[i].0).Some? && claims[i].1 in shifts
  }

  /** Claims go through exactly when every one is found; they add no penalty. */
  lemma {:induction false} ClaimsStatus(b: nat, n: nat, shifts: seq<string>, claims: seq<(int, string)>)
    ensures ClaimsRule(b, n, shifts, claims).status.Pass? <==> ClaimsFound(n, shifts, claims)
    ensures ClaimsRule(b, n, shifts, claims).ps == []
    decreases |claims|
  {
    if |claims| > 0 {
      var front := claims[..|claims| - 1];
      ClaimsStatus(b, n, shifts, front);
      assert forall i :: 0 <= i < |front| ==> claims[i] == front[i];
    }
  }

  /** When the claims go through, their constraints hold exactly when every claimed shift is worked. */
  lemma {:induction false} ClaimsHold(a: Assignment, b: nat, n: nat, shifts: seq<string>, claims: seq<(int, string)>)
    requires ClaimsFound(n, shifts, claims)
    ensures ClaimsRule(b, n, shifts, claims).status.Pass?
    ensures AllHold(a, ClaimsRule(b, n, shifts, claims).cs) <==>
      forall i :: 0 <= i < |claims| ==> a.x(b, ListIndex(n, claims[i].0).value, claims[i].1)
    decreases |claims|
  {
    ClaimsStatus(b, n, shifts, claims);
    if |claims| > 0 {
      var front, c := claims[..|claims| - 1], Last(claims);
      assert forall i :: 0 <= i < |front| ==> claims[i] == front[i];
      ClaimsHold(a, b, n, shifts, front);
      var v := X(b, ListIndex(n, c.0).value, c.1);
      assert FixCell(b, n, shifts, c.0, c.1, 1) == Done([FixTo(v, 1)]);
      AllHoldConcat(a, ClaimsRule(b, n, shifts, front).cs, [FixTo(v, 1)]);
      AllHoldOne(a, FixTo(v, 1));
      FixToHolds(a, v, 1);
    }
  }

  /** A bad claim raises the error of the first bad claim; the claims before it stay in the model. */
  lemma {:induction false} ClaimsFirstError(b: nat, n: nat, shifts: seq<string>, claims: seq<(int, string)>)
    requires ClaimsRule(b, n, shifts, claims).status.Fail?
    ensures exists k ::
              0 <= k < |claims| && ClaimsFound(n, shifts, claims[..k])
              && CellVar(b, n, shifts, claims[k].0, claims[k].1) == Failure(ClaimsRule(b, n, shifts, claims).status.error)
              && ClaimsRule(b, n, shifts, claims).cs == ClaimsRule(b, n, shifts, claims[..k]).cs
    decreases |claims|
  {
    var front, c := claims[..|claims| - 1], Last(claims);
    var e1 := ClaimsRule(b, n, shifts, front);
    if e1.status.Fail? {
      ClaimsFirstError(b, n, shifts, front);
      var j :| 0 <= j < |front| && ClaimsFound(n, shifts, front[..j]) &&
        CellVar(b, n, shifts, front[j].0, front[j].1) == Failure(e1.status.error) &&
        e1.cs == ClaimsRule(b, n, shifts, front[..j]).cs;
      assert front[..j] == claims[..j];
      assert claims[j] == front[j];
    } else {
      var k := |claims| - 1;
      ClaimsStatus(b, n, shifts, front);
      assert claims[..k] == front;
      assert CellVar(b, n, shifts, c.0, c.1).Failure?;
    }
  }

  // ---------------------------------------------------------------- cant_book_nofill_days

  /** `for shift in ss: model.Add(schedules[name][day][shift] == 0)`. */
  function NofillDay(b: nat, n: nat, shifts: seq<string>, day: int, ss: seq<string>): Emission
  {
    if |ss| == 0 then Done([])
    else Then(NofillDay(b, n, shifts, day, ss[..|ss| - 1]), FixCell(b, n, shifts, day, Last(ss), 0))
  }

  /** `cant_book_nofill_days`, which neither build list calls. */
  function NofillRule(b: nat, n: nat, shifts: seq<string>, nofill: seq<int>): Emission
  {
    if |nofill| == 0 then Done([])
    else Then(NofillRule(b, n, shifts, nofill[..|nofill| - 1]), NofillDay(b, n, shifts, Last(nofill), shifts))
  }

  /** Once a shift of a no-fill day raises, the later shifts add nothing. */
  lemma {:induction false} NofillDayFailStays(b: nat, n: nat, shifts: seq<string>, day: int, ss: seq<string>, j: nat)
    requires j <= |ss| && NofillDay(b, n, shifts, day, ss[..j]).status.Fail?
    ensures NofillDay(b, n, shifts, day, ss) == NofillDay(b, n, shifts, day, ss[..j])
    decreases |ss|
  {
    if j < |ss| {
      var front := ss[..|ss| - 1];
      assert front[..j] == ss[..j];
      NofillDayFailStays(b, n, shifts, day, front, j);
    } else {
      assert ss[..j] == ss;
    }
  }

  /** Once a no-fill day raises, the later days add nothing. */
  lemma {:induction false} NofillRuleFailStays(b: nat, n: nat, shifts: seq<string>, nofill: seq<int>, j: nat)
    requires j <= |nofill| && NofillRule(b, n, shifts, nofill[..j]).status.Fail?
    ensures NofillRule(b, n, shifts, nofill) == NofillRule(b, n, shifts, nofill[..j])
    decreases |nofill|
  {
    if j < |nofill| {
      var front := nofill[..|nofill| - 1];
      assert front[..j] == nofill[..j];
      NofillRuleFailStays(b, n, shifts, front, j);
    } else {
      assert nofill[..j] == nofill;
    }
  }

  lemma {:induction false} NofillDayHolds(a: Assignment, b: nat, n: nat, shifts: seq<string>, day: int, ss: seq<string>)
    requires forall s :: s in ss ==> s in shifts
    ensures NofillDay(b, n, shifts, day, ss).status.Pass? <==> |ss| == 0 || ListIndex(n, day).Some?
    ensures NofillDay(b, n, shifts, day, ss).status.Fail? ==> NofillDay(b, n, shifts, day, ss).status.error == IndexError
    ensures NofillDay(b, n, shifts, day, ss).status.Pass? && |ss| > 0 ==>
      (AllHold(a, NofillDay(b, n, shifts, day, ss).cs) <==>
        forall s :: s in ss ==> !a.x(b, ListIndex(n, day).value, s))
    ensures NofillDay(b, n, shifts, day, ss).ps == []
    decreases |ss|
  {
    if |ss| > 0 {
      var front, s := ss[..|ss| - 1], Last(ss);
      assert ss == front + [s];
      NofillDayHolds(a, b, n, shifts, day, front);
      var e1 := NofillDay(b, n, shifts, day, front);
      var e2 := FixCell(b, n, shifts, day, s, 0);
      if e1.status.Pass? {
        AllHoldConcat(a, e1.cs, e2.cs);
        if ListIndex(n, day).Some? {
          var v := X(b, ListIndex(n, day).value, s);
          AllHoldOne(a, FixTo(v, 0));
          FixToHolds(a, v, 0);
        }
      }
    }
  }

  /**
   * The rule raises `IndexError` exactly when some no-fill day is outside `[-n, n)` and
   * there is a shift; otherwise its constraints hold exactly when no shift of a no-fill
   * day is worked.
   */
  lemma {:induction false} NofillHolds(a: Assignment, b: nat, n: nat, shifts: seq<string>, nofill: seq<int>)
    ensures NofillRule(b, n, shifts, nofill).status.Pass? <==>
      |shifts| == 0 || forall i :: 0 <= i < |nofill| ==> ListIndex(n, nofill[i]).Some?
    ensures NofillRule(b, n, shifts, nofill).status.Fail? ==> NofillRule(b, n, shifts, nofill).status.error == IndexError
    ensures NofillRule(b, n, shifts, nofill).status.Pass? && |shifts| > 0 ==>
      (AllHold(a, NofillRule(b, n, shifts, nofill).cs) <==>
        forall i, s :: 0 <= i < |nofill| && s in shifts ==> !a.x(b, ListIndex(n, nofill[i]).value, s))
    decreases |nofill|
  {
    if |nofill| > 0 {
      var front, d := nofill[..|nofill| - 1], Last(nofill);
      var k := |nofill| - 1;
      assert forall i :: 0 <= i < k ==> nofill[i] == front[i];
      NofillHolds(a, b, n, shifts, front);
      NofillDayHolds(a, b, n, shifts, d, shifts);
      var e1 := NofillRule(b, n, shifts, front);
      var e2 := NofillDay(b, n, shifts, d, shifts);
      if e1.status.Pass? {
        AllHoldConcat(a, e1.cs, e2.cs);
      }
    }
  }
}
