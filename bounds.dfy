/**
 * The soft count bounds: `strictly_bounded` pins a sum of decision variables inside a
 * window and charges one penalty for touching each end of it; `set_shift_expectations`
 * and `balance_trauma_call` choose the sums and the windows.
 */
module Bounds {
  import opened Wrappers
  import opened Lists
  import opened CpModel
  import opened Registry
  import opened Fairness
  import opened Calendar

  /** `strictly_bounded(resident, sum(counted), lower, upper)` for the resident owning block `b`. */
  function StrictlyBounded(b: nat, bound: Bound, counted: seq<Var>, lower: int, upper: int, numDays: nat): Emission
  {
    var taken := Aux(b, Taken(bound));
    var low := Aux(b, LowerReached(bound));
    var up := Aux(b, UpperReached(bound));
    Emission(
      [ Domain(taken, 0, numDays),
        Domain(low, 0, 1),
        Domain(up, 0, 1),
        Linear(OfVar(taken), Eq, SumOf(counted), []),
        Linear(OfVar(taken), Ge, Const(lower), []),
        Linear(OfVar(taken), Le, Const(upper), []),
        Linear(OfVar(taken), Eq, Const(lower), [Pos(low)]),
        Linear(OfVar(taken), Eq, Const(upper), [Pos(up)]),
        Linear(OfVar(taken), Ne, Const(lower), [Neg(low)]),
        Linear(OfVar(taken), Ne, Const(upper), [Neg(up)]) ],
      [low, up],
      Pass)
  }

  /** What `strictly_bounded` demands of an assignment, stated directly. */
  predicate BoundMet(a: Assignment, b: nat, bound: Bound, counted: seq<Var>, lower: int, upper: int, numDays: nat)
  {
    var e := SumValues(a, counted);
    && lower <= e <= upper
    && 0 <= e <= numDays
    && a.aux(b, Taken(bound)) == e
    && a.aux(b, LowerReached(bound)) == (if e == lower then 1 else 0)
    && a.aux(b, UpperReached(bound)) == (if e == upper then 1 else 0)
  }

  /**
   * The constraints of `strictly_bounded` hold exactly when the sum lies in `[lower, upper]`
   * and in `[0, num_days]`, the count variable equals it, and each flag records whether the
   * sum sits on its end of the window.
   */
  lemma StrictlyBoundedHolds(a: Assignment, b: nat, bound: Bound, counted: seq<Var>, lower: int, upper: int, numDays: nat)
    ensures AllHold(a, StrictlyBounded(b, bound, counted, lower, upper, numDays).cs) <==>
      BoundMet(a, b, bound, counted, lower, upper, numDays)
  {
    var cs := StrictlyBounded(b, bound, counted, lower, upper, numDays).cs;
    var taken := Aux(b, Taken(bound));
    var low := Aux(b, LowerReached(bound));
    var up := Aux(b, UpperReached(bound));
    EvalOfVar(a, taken);
    LinearGuarded(a, Pos(low), OfVar(taken), Eq, Const(lower));
    LinearGuarded(a, Pos(up), OfVar(taken), Eq, Const(upper));
    LinearGuarded(a, Neg(low), OfVar(taken), Ne, Const(lower));
    LinearGuarded(a, Neg(up), OfVar(taken), Ne, Const(upper));
    assert AllHold(a, cs) <==>
      Holds(a, cs[0]) && Holds(a, cs[1]) && Holds(a, cs[2]) && Holds(a, cs[3]) && Holds(a, cs[4]) &&
      Holds(a, cs[5]) && Holds(a, cs[6]) && Holds(a, cs[7]) && Holds(a, cs[8]) && Holds(a, cs[9]);
  }

  /** `strictly_bounded` adds `[E == lower] + [E == upper]` to the objective. */
  lemma StrictlyBoundedCost(a: Assignment, b: nat, bound: Bound, counted: seq<Var>, lower: int, upper: int, numDays: nat)
    requires AllHold(a, StrictlyBounded(b, bound, counted, lower, upper, numDays).cs)
    ensures var e := SumValues(a, counted);
      PenaltySum(a, StrictlyBounded(b, bound, counted, lower, upper, numDays).ps) ==
        (if e == lower then 1 else 0) + (if e == upper then 1 else 0)
  {
    StrictlyBoundedHolds(a, b, bound, counted, lower, upper, numDays);
    var low := Aux(b, LowerReached(bound));
    var up := Aux(b, UpperReached(bound));
    assert [low, up][..1] == [low];
    assert SumValues(a, [low]) == SumValues(a, []) + Value(a, low);
  }

  /**
   * Around an expectation `x`, a satisfying count costs nothing exactly when it lies
   * strictly inside the window; inside a two-wide window that is the one value between the
   * ends, and a one-wide window (a fractional `x` between -1 and 1) leaves no such value.
   */
  lemma WindowCost(x: real, e: int)
    requires Window(x).0 <= e <= Window(x).1
    ensures Window(x).1 - Window(x).0 == 2 <==> !(-1.0 < x < 1.0 && x != 0.0)
    ensures (if e == Window(x).0 then 1 else 0) + (if e == Window(x).1 then 1 else 0) == 0 <==>
      Window(x).1 - Window(x).0 == 2 && e == Window(x).0 + 1
    ensures x == x.Floor as real ==>
      ((if e == Window(x).0 then 1 else 0) + (if e == Window(x).1 then 1 else 0) == 0 <==> e == x.Floor)
  {
    WindowWidth(x);
  }

  // ---------------------------------------------------------------- the sums that are bounded

  /** `[x[b][day][shift] for day in days]`. */
  function ShiftColumn(b: nat, days: seq<nat>, shift: string): (vs: seq<Var>)
    ensures |vs| == |days| && forall i :: 0 <= i < |days| ==> vs[i] == X(b, days[i], shift)
  {
    if |days| == 0 then [] else ShiftColumn(b, days[..|days| - 1], shift) + [X(b, Last(days), shift)]
  }

  /** The number of days of `days` on which the block works `shift`. */
  function Worked(a: Assignment, b: nat, days: seq<nat>, shift: string): (n: nat)
    ensures n <= |days|
  {
    if |days| == 0 then 0 else Worked(a, b, days[..|days| - 1], shift) + (if a.x(b, Last(days), shift) then 1 else 0)
  }

  /** `Worked` is the number of positions of `days` whose day the block works on `shift`. */
  lemma {:induction false} WorkedCounts(a: Assignment, b: nat, days: seq<nat>, shift: string)
    ensures Worked(a, b, days, shift) == |set i | 0 <= i < |days| && a.x(b, days[i], shift)|
    decreases |days|
  {
    var cur := set i | 0 <= i < |days| && a.x(b, days[i], shift);
    if |days| == 0 {
      assert cur == {};
    } else {
      var front := days[..|days| - 1];
      WorkedCounts(a, b, front, shift);
      var prev := set i | 0 <= i < |front| && a.x(b, front[i], shift);
      if a.x(b, Last(days), shift) {
        assert cur == prev + {|days| - 1};
      } else {
        assert cur == prev;
      }
    }
  }

  /** The sum over a shift column counts the days worked on that shift. */
  lemma {:induction false} ShiftColumnCounts(a: Assignment, b: nat, days: seq<nat>, shift: string)
    ensures SumValues(a, ShiftColumn(b, days, shift)) == Worked(a, b, days, shift)
    decreases |days|
  {
    if |days| > 0 {
      var col := ShiftColumn(b, days, shift);
      assert col[..|col| - 1] == ShiftColumn(b, days[..|days| - 1], shift);
      ShiftColumnCounts(a, b, days[..|days| - 1], shift);
    }
  }

  /**
   * `set_shift_expectations`: the last shift over every day is bounded around the expected
   * total, the first shift over the weekends and holidays around two sevenths of it.
   */
  function SetExpectations(b: nat, res: Resident, numDays: nat, ratio: Option<real>, shifts: seq<string>, weekends: seq<nat>): Emission
    requires |shifts| > 0
  {
    match ExpectedTotal(res, numDays, ratio)
    case Failure(e) => Emission([], [], Fail(e))
    case Success(x) =>
      var total := Window(x);
      var weekend := Window(ExpectedWeekend(x));
      Then(
        StrictlyBounded(b, TotalShifts, ShiftColumn(b, Days(numDays), Last(shifts)), total.0, total.1, numDays),
        StrictlyBounded(b, WeekendShift, ShiftColumn(b, weekends, shifts[0]), weekend.0, weekend.1, numDays))
  }

  /**
   * When the expectation can be computed, the rule's constraints hold exactly when both
   * counts are bounded as `strictly_bounded` demands; otherwise it raises before emitting.
   */
  lemma SetExpectationsHolds(a: Assignment, b: nat, res: Resident, numDays: nat, ratio: Option<real>, shifts: seq<string>, weekends: seq<nat>)
    requires |shifts| > 0
    ensures var e := SetExpectations(b, res, numDays, ratio, shifts, weekends);
      ExpectedTotal(res, numDays, ratio).Failure? ==> e == Emission([], [], Fail(AttributeError))
    ensures var e := SetExpectations(b, res, numDays, ratio, shifts, weekends);
      ExpectedTotal(res, numDays, ratio).Success? ==>
        var x := ExpectedTotal(res, numDays, ratio).value;
        && e.status == Pass
        && |e.ps| == 4
        && (AllHold(a, e.cs) <==>
             && BoundMet(a, b, TotalShifts, ShiftColumn(b, Days(numDays), Last(shifts)), Window(x).0, Window(x).1, numDays)
             && BoundMet(a, b, WeekendShift, ShiftColumn(b, weekends, shifts[0]), Window(ExpectedWeekend(x)).0, Window(ExpectedWeekend(x)).1, numDays))
  {
    if ExpectedTotal(res, numDays, ratio).Success? {
      var x := ExpectedTotal(res, numDays, ratio).value;
      var first := StrictlyBounded(b, TotalShifts, ShiftColumn(b, Days(numDays), Last(shifts)), Window(x).0, Window(x).1, numDays);
      var second := StrictlyBounded(b, WeekendShift, ShiftColumn(b, weekends, shifts[0]), Window(ExpectedWeekend(x)).0, Window(ExpectedWeekend(x)).1, numDays);
      AllHoldConcat(a, first.cs, second.cs);
      StrictlyBoundedHolds(a, b, TotalShifts, ShiftColumn(b, Days(numDays), Last(shifts)), Window(x).0, Window(x).1, numDays);
      StrictlyBoundedHolds(a, b, WeekendShift, ShiftColumn(b, weekends, shifts[0]), Window(ExpectedWeekend(x)).0, Window(ExpectedWeekend(x)).1, numDays);
    }
  }

  /**
   * `balance_trauma_call`: the first shift over the working days is bounded around the
   * resident's share of the trauma day-call; the errors of the expectation propagate.
   */
  function TraumaBalance(b: nat, rs: seq<Resident>, res: Resident, working: seq<nat>, numDays: nat, shifts: seq<string>): Emission
    requires |shifts| > 0
  {
    match TraumaExpectation(rs, working, numDays, res)
    case Failure(e) => Emission([], [], Fail(e))
    case Success(x) =>
      StrictlyBounded(b, TraumaShifts, ShiftColumn(b, working, shifts[0]), Window(x).0, Window(x).1, numDays)
  }

  lemma TraumaBalanceHolds(a: Assignment, b: nat, rs: seq<Resident>, res: Resident, working: seq<nat>, numDays: nat, shifts: seq<string>)
    requires |shifts| > 0
    ensures var e := TraumaBalance(b, rs, res, working, numDays, shifts);
      TraumaExpectation(rs, working, numDays, res).Failure? ==>
        e.cs == [] && e.ps == [] && e.status == Fail(TraumaExpectation(rs, working, numDays, res).error)
    ensures var e := TraumaBalance(b, rs, res, working, numDays, shifts);
      TraumaExpectation(rs, working, numDays, res).Success? ==>
        var x := TraumaExpectation(rs, working, numDays, res).value;
        && e.status == Pass
        && |e.ps| == 2
        && (AllHold(a, e.cs) <==> BoundMet(a, b, TraumaShifts, ShiftColumn(b, working, shifts[0]), Window(x).0, Window(x).1, numDays))
  {
    if TraumaExpectation(rs, working, numDays, res).Success? {
      var x := TraumaExpectation(rs, working, numDays, res).value;
      StrictlyBoundedHolds(a, b, TraumaShifts, ShiftColumn(b, working, shifts[0]), Window(x).0, Window(x).1, numDays);
    }
  }
}
