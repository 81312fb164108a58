/**
 * The fairness arithmetic: the call ratio shared by all residents, each resident's
 * expected number of last-shift calls and weekend first shifts, and a trauma resident's
 * expected number of working-day first shifts. Python floats are exact reals here, and
 * `int()` on a float is truncation toward zero.
 */
module Fairness {
  import opened Wrappers
  import opened Registry

  const TraumaShiftMultiplier: int := 2

  /** Python's `int(x)` for a float `x`: rounds toward zero. */
  function Trunc(x: real): (r: int)
    ensures 0.0 <= x ==> r as real <= x < r as real + 1.0
    ensures x < 0.0 ==> r as real - 1.0 < x <= r as real
  {
    if x >= 0.0 then x.Floor else -((-x).Floor)
  }

  /** `(1 + int(on_trauma) * (trauma_shift_multiplier - 1))`: trauma residents count double. */
  function Weight(res: Resident): int
  {
    1 + (if res.onTrauma then 1 else 0) * (TraumaShiftMultiplier - 1)
  }

  /** `resident_days_available`: the weighted person-days over all registered residents. */
  function DaysAvailable(rs: seq<Resident>, daysToFill: int): int
  {
    if |rs| == 0 then 0
    else
      var res := rs[|rs| - 1];
      DaysAvailable(rs[..|rs| - 1], daysToFill) + Weight(res) * (daysToFill - |res.vacation|)
  }

  /** The sum of the weights of `rs`. */
  function TotalWeight(rs: seq<Resident>): nat
  {
    if |rs| == 0 then 0 else TotalWeight(rs[..|rs| - 1]) + Weight(rs[|rs| - 1])
  }

  /** `calculate_call_ratio`: days to fill per weighted person-day. */
  function CallRatio(rs: seq<Resident>, daysToFill: int): (r: Result<real>)
    ensures r.Failure? <==> DaysAvailable(rs, daysToFill) == 0
    ensures r.Failure? ==> r.error == ZeroDivisionError
    ensures r.Success? ==> r.value * DaysAvailable(rs, daysToFill) as real == daysToFill as real
  {
    var available := DaysAvailable(rs, daysToFill);
    if available == 0 then Failure(ZeroDivisionError) else Success(daysToFill as real / available as real)
  }

  /** Python truthiness of `days_override`: `None` and `0` both mean "no override". */
  predicate Truthy(daysOverride: Option<int>)
  {
    daysOverride.Some? && daysOverride.value != 0
  }

  /** The share the call ratio gives a resident over the whole horizon of `numDays` days. */
  function NightShare(res: Resident, numDays: nat, ratio: real): real
  {
    (numDays - |res.vacation|) as real * ratio * Multiplier(res) as real
  }

  /** The factor of a resident's share: the trauma multiplier for a trauma resident, else 1. */
  function Multiplier(res: Resident): nat
  {
    if res.onTrauma then TraumaShiftMultiplier else 1
  }

  /**
   * `expected_night_shifts` in `set_shift_expectations`: the override when it is truthy,
   * otherwise the resident's share; reading a call ratio that was never computed raises.
   */
  function ExpectedTotal(res: Resident, numDays: nat, ratio: Option<real>): (r: Result<real>)
    ensures r.Failure? <==> !Truthy(res.daysOverride) && ratio.None?
    ensures r.Failure? ==> r.error == AttributeError
    ensures Truthy(res.daysOverride) ==> r.Success? && r.value == res.daysOverride.value as real
  {
    if Truthy(res.daysOverride) then Success(res.daysOverride.value as real)
    else if ratio.None? then Failure(AttributeError)
    else Success(NightShare(res, numDays, ratio.value))
  }

  /** `expected_weekend_shifts = expected_night_shifts * 2/7`. */
  function ExpectedWeekend(total: real): real
  {
    total * 2.0 / 7.0
  }

  /**
   * `(int(x - 1), int(x + 1))`, the lower and upper bound put around an expectation `x`.
   * The window always straddles `x`, is one or two wide, and is `(k-1, k+1)` for an integer `k`.
   */
  function Window(x: real): (w: (int, int))
    ensures (w.0 as real) < x < (w.1 as real)
    ensures 1 <= w.1 - w.0 <= 2
    ensures x == x.Floor as real ==> w == (x.Floor - 1, x.Floor + 1)
  {
    WindowFacts(x);
    (Trunc(x - 1.0), Trunc(x + 1.0))
  }

  lemma WindowFacts(x: real)
    ensures (Trunc(x - 1.0) as real) < x < (Trunc(x + 1.0) as real)
    ensures 1 <= Trunc(x + 1.0) - Trunc(x - 1.0) <= 2
    ensures x == x.Floor as real ==> Trunc(x - 1.0) == x.Floor - 1 && Trunc(x + 1.0) == x.Floor + 1
  {
    var lo, hi := Trunc(x - 1.0), Trunc(x + 1.0);
    assert x - 2.0 < lo as real <= x - 1.0 || x - 1.0 <= lo as real < x;
    assert x < hi as real <= x + 1.0 || x + 1.0 <= hi as real < x + 2.0;
    if x >= 1.0 {
      assert lo as real <= x - 1.0 && x < hi as real <= x + 1.0;
    } else if x >= -1.0 {
      assert x - 1.0 <= lo as real < x && x < hi as real <= x + 1.0;
    } else {
      assert x - 1.0 <= lo as real < x && x < hi as real < x + 2.0;
    }
    if x == x.Floor as real {
      var k := x.Floor;
      assert (k - 1) as real == x - 1.0 && (k + 1) as real == x + 1.0;
    }
  }

  /**
   * Truncation toward zero narrows the window to one for a fractional expectation strictly
   * between -1 and 1: `int(0.5 - 1) == 0` and `int(0.5 + 1) == 1`, so no value lies strictly
   * inside it. Everywhere else the window is two wide around `x`.
   */
  lemma WindowWidth(x: real)
    ensures Window(x).1 - Window(x).0 == 1 <==> -1.0 < x < 1.0 && x != 0.0
    ensures 0.0 < x < 1.0 ==> Window(x) == (0, 1)
  {
    var lo, hi := Trunc(x - 1.0), Trunc(x + 1.0);
    if 0.0 < x < 1.0 {
      assert lo == 0 && hi == 1;
    } else if -1.0 < x < 0.0 {
      assert lo == -1 && hi == 0;
    } else if x == 0.0 {
      assert lo == -1 && hi == 1;
    } else if x >= 1.0 {
      assert lo == (x - 1.0).Floor && hi == (x + 1.0).Floor;
      assert (x + 1.0).Floor == (x - 1.0).Floor + 2;
    } else {
      assert lo == -((1.0 - x).Floor) && hi == -((-1.0 - x).Floor);
      assert (1.0 - x).Floor == (-1.0 - x).Floor + 2;
    }
  }

  // ---------------------------------------------------------------- trauma day-call

  /** `for day in days: if day not in vacation: count += 1`. */
  function CountNotIn(days: seq<nat>, vacation: seq<int>): (c: nat)
    ensures c <= |days|
  {
    if |days| == 0 then 0
    else CountNotIn(days[..|days| - 1], vacation) + (if days[|days| - 1] in vacation then 0 else 1)
  }

  /** `num_away_days`: the days of `[0, n)` that are vacation days, each counted once. */
  function AwayDays(n: nat, vacation: seq<int>): (c: nat)
    ensures c <= n
  {
    if n == 0 then 0 else AwayDays(n - 1, vacation) + (if n - 1 in vacation then 1 else 0)
  }

  /** `AwayDays` is the size of the set of vacation days below `n`: repeats count once. */
  lemma {:induction false} AwayDaysCounts(n: nat, vacation: seq<int>)
    ensures AwayDays(n, vacation) == |set d: nat | d < n && d in vacation|
    decreases n
  {
    var cur := set d: nat | d < n && d in vacation;
    if n == 0 {
      assert cur == {};
    } else {
      AwayDaysCounts(n - 1, vacation);
      var prev := set d: nat | d < n - 1 && d in vacation;
      if n - 1 in vacation {
        assert cur == prev + {n - 1};
      } else {
        assert cur == prev;
      }
    }
  }

  /** `trauma_days_available`: working days not on vacation, summed over trauma residents. */
  function TraumaDaysAvailable(rs: seq<Resident>, working: seq<nat>): nat
  {
    if |rs| == 0 then 0
    else
      var res := rs[|rs| - 1];
      TraumaDaysAvailable(rs[..|rs| - 1], working) + (if res.onTrauma then CountNotIn(working, res.vacation) else 0)
  }

  /**
   * `expected_day_shifts` in `balance_trauma_call`: the ratio divides by zero when no trauma
   * resident has a free working day, and the expectation is never assigned when `res`
   * itself has none.
   */
  function TraumaExpectation(rs: seq<Resident>, working: seq<nat>, numDays: nat, res: Resident): (r: Result<real>)
    ensures r.Failure? <==> TraumaDaysAvailable(rs, working) == 0 || CountNotIn(working, res.vacation) == 0
    ensures r.Failure? ==>
      r.error == if TraumaDaysAvailable(rs, working) == 0 then ZeroDivisionError else UnboundLocalError
  {
    var available := TraumaDaysAvailable(rs, working);
    if available == 0 then Failure(ZeroDivisionError)
    else if CountNotIn(working, res.vacation) == 0 then Failure(UnboundLocalError)
    else Success(ExpectedDayShifts(|working|, AwayDays(numDays, res.vacation), available))
  }

  /** `(num_trauma_days - num_away_days) * trauma_days_ratio`. */
  function ExpectedDayShifts(numTraumaDays: int, awayDays: int, available: int): real
    requires available != 0
  {
    (numTraumaDays - awayDays) as real * (numTraumaDays as real / available as real)
  }

  // ---------------------------------------------------------------- properties

  /** A trauma resident's share is twice that of a non-trauma resident with as many vacation days. */
  lemma TraumaShareDoubles(t: Resident, o: Resident, numDays: nat, ratio: real)
    requires t.onTrauma && !o.onTrauma && |t.vacation| == |o.vacation|
    ensures NightShare(t, numDays, ratio) == 2.0 * NightShare(o, numDays, ratio)
    ensures NightShare(o, numDays, ratio) == (Weight(o) as real) * (numDays - |o.vacation|) as real * ratio
  {
  }

  /** The sum of the residents' shares. */
  function SumShares(rs: seq<Resident>, numDays: nat, ratio: real): real
  {
    if |rs| == 0 then 0.0 else SumShares(rs[..|rs| - 1], numDays, ratio) + NightShare(rs[|rs| - 1], numDays, ratio)
  }

  /** The weighted person-days of `rs` over the whole horizon. */
  function HorizonUnits(rs: seq<Resident>, numDays: nat): int
  {
    if |rs| == 0 then 0
    else
      var res := rs[|rs| - 1];
      HorizonUnits(rs[..|rs| - 1], numDays) + (numDays - |res.vacation|) * Multiplier(res)
  }

  /** The shares are the call ratio times the weighted person-days of the horizon. */
  lemma {:induction false} SumSharesScale(rs: seq<Resident>, numDays: nat, ratio: real)
    ensures SumShares(rs, numDays, ratio) == ratio * HorizonUnits(rs, numDays) as real
    decreases |rs|
  {
    if |rs| > 0 {
      var front, res := rs[..|rs| - 1], rs[|rs| - 1];
      SumSharesScale(front, numDays, ratio);
      CastMul(numDays - |res.vacation|, Multiplier(res));
      ScaleStep(ratio, SumShares(front, numDays, ratio), HorizonUnits(front, numDays) as real,
        HorizonUnits(rs, numDays) as real, (numDays - |res.vacation|) as real, Multiplier(res) as real);
    }
  }

  /** The horizon's person-days are the days to fill's plus the no-fill days once per unit of weight. */
  lemma {:induction false} HorizonUnitsSplit(rs: seq<Resident>, numDays: nat, daysToFill: int)
    ensures HorizonUnits(rs, numDays) == DaysAvailable(rs, daysToFill) + (numDays - daysToFill) * TotalWeight(rs)
    decreases |rs|
  {
    if |rs| > 0 {
      var front, res := rs[..|rs| - 1], rs[|rs| - 1];
      HorizonUnitsSplit(front, numDays, daysToFill);
      assert Multiplier(res) == Weight(res);
      Distribute(numDays - daysToFill, TotalWeight(front), Weight(res));
      Distribute(Weight(res), daysToFill - |res.vacation|, numDays - daysToFill);
    }
  }

  lemma SumSharesSplit(rs: seq<Resident>, numDays: nat, daysToFill: int, ratio: real)
    ensures SumShares(rs, numDays, ratio) ==
      ratio * (DaysAvailable(rs, daysToFill) as real + (numDays - daysToFill) as real * TotalWeight(rs) as real)
  {
    SumSharesScale(rs, numDays, ratio);
    HorizonUnitsSplit(rs, numDays, daysToFill);
    CastMul(numDays - daysToFill, TotalWeight(rs));
  }

  /**
   * Without overrides, the expected totals add up to the days to fill plus one share of the
   * no-fill days per unit of weight: `set_shift_expectations` counts the whole horizon while
   * `calculate_call_ratio` counts only the days to fill.
   */
  lemma ExpectationsTotal(rs: seq<Resident>, numDays: nat, daysToFill: int, ratio: real)
    requires CallRatio(rs, daysToFill) == Success(ratio)
    ensures SumShares(rs, numDays, ratio) ==
      daysToFill as real + ratio * (numDays - daysToFill) as real * TotalWeight(rs) as real
  {
    SumSharesSplit(rs, numDays, daysToFill, ratio);
  }

  /** With no no-fill day, the expected totals add up to exactly the number of days. */
  lemma ExpectationsCoverHorizon(rs: seq<Resident>, numDays: nat, ratio: real)
    requires CallRatio(rs, numDays) == Success(ratio)
    ensures SumShares(rs, numDays, ratio) == numDays as real
  {
    ExpectationsTotal(rs, numDays, numDays, ratio);
  }

  /** The number of trauma residents. */
  function TraumaCount(rs: seq<Resident>): nat
  {
    if |rs| == 0 then 0 else TraumaCount(rs[..|rs| - 1]) + (if rs[|rs| - 1].onTrauma then 1 else 0)
  }

  lemma {:induction false} CountNotInNone(days: seq<nat>)
    ensures CountNotIn(days, []) == |days|
    decreases |days|
  {
    if |days| > 0 {
      CountNotInNone(days[..|days| - 1]);
    }
  }

  lemma {:induction false} AwayDaysNone(n: nat)
    ensures AwayDays(n, []) == 0
  {
    if n > 0 {
      AwayDaysNone(n - 1);
    }
  }

  lemma {:induction false} TraumaDaysWithoutVacation(rs: seq<Resident>, working: seq<nat>)
    requires forall i :: 0 <= i < |rs| && rs[i].onTrauma ==> rs[i].vacation == []
    ensures TraumaDaysAvailable(rs, working) == |working| * TraumaCount(rs)
    decreases |rs|
  {
    if |rs| > 0 {
      TraumaDaysWithoutVacation(rs[..|rs| - 1], working);
      CountNotInNone(working);
    }
  }

  /**
   * When no trauma resident is away, the working days are shared equally: each trauma
   * resident expects `|working_days| / (number of trauma residents)` first shifts.
   */
  lemma TraumaEqualShare(rs: seq<Resident>, working: seq<nat>, numDays: nat, res: Resident)
    requires |working| > 0 && res.vacation == []
    requires forall i :: 0 <= i < |rs| && rs[i].onTrauma ==> rs[i].vacation == []
    ensures TraumaCount(rs) > 0 ==>
      TraumaExpectation(rs, working, numDays, res) == Success(|working| as real / TraumaCount(rs) as real)
    ensures TraumaCount(rs) == 0 ==> TraumaExpectation(rs, working, numDays, res) == Failure(ZeroDivisionError)
  {
    TraumaDaysWithoutVacation(rs, working);
    CountNotInNone(working);
    AwayDaysNone(numDays);
    var m, k := |working|, TraumaCount(rs);
    if k > 0 {
      assert TraumaExpectation(rs, working, numDays, res) == Success(ExpectedDayShifts(m, 0, m * k));
      EqualShare(m, k);
    }
  }

  lemma EqualShare(m: nat, k: nat)
    requires m > 0 && k > 0
    ensures ExpectedDayShifts(m, 0, m * k) == m as real / k as real
  {
    CastMul(m, k);
    DivCancel(m as real, k as real);
  }

  lemma DivCancel(w: real, t: real)
    requires w > 0.0 && t > 0.0
    ensures w * (w / (w * t)) == w / t
  {
    var p := w * t;
    assert p > 0.0 by { assert w * t > 0.0 * t; }
    var q := w / p;
    assert q * p == w;
    assert (w * q) * t == q * p;
    assert (w / t) * t == w;
    assert (w * q - w / t) * t == 0.0;
  }

  lemma {:induction false} CastMul(a: int, b: nat)
    ensures (a * b) as real == a as real * b as real
  {
    if b > 0 {
      CastMul(a, b - 1);
      assert a * b == a * (b - 1) + a;
    }
  }

  lemma ScaleStep(ratio: real, s: real, u: real, u': real, nv: real, m: real)
    requires s == ratio * u && u' == u + nv * m
    ensures s + nv * ratio * m == ratio * u'
  {
  }

  lemma Distribute(x: int, y: int, z: int)
    ensures x * (y + z) == x * y + x * z
  {
  }
}
