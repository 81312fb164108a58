/**
 * The soft rules: each creates auxiliary variables, constrains them, and appends
 * penalty variables whose sum the solver minimises. `prefer_full_day_call` charges a
 * split day; `penalize_multiple_fridays` and `disperse_call` charge Fridays in a row and
 * busy weeks, but only through flags that the solver is free to leave off.
 */
module Penalties {
  import opened Wrappers
  import opened CpModel
  import opened Calendar
  import opened Lists

  const HalfDayCallPenalty: int := 2

  // ---------------------------------------------------------------- prefer_full_day_call

  /** The four constraints and the penalty `prefer_full_day_call` adds for one day. */
  function FullDayAt(b: nat, day: nat, first: string, last: string): Emission
  {
    var violated := Aux(b, FullDayViolated(day));
    var penalty := Aux(b, HalfDayPenalty(day));
    Emission(
      [ Domain(violated, 0, 1),
        Domain(penalty, 0, 16),
        BoolXor([Pos(X(b, day, first)), Pos(X(b, day, last)), Neg(violated)]),
        Linear(OfVar(penalty), Ge, Const(HalfDayCallPenalty), [Pos(violated)]) ],
      [penalty], Pass)
  }

  /** The loop over `range(k)`. */
  function FullDayUpTo(b: nat, k: nat, shifts: seq<string>): Emission
    requires |shifts| > 0
  {
    if k == 0 then Done([]) else Then(FullDayUpTo(b, k - 1, shifts), FullDayAt(b, k - 1, shifts[0], Last(shifts)))
  }

  /** A day is split when exactly one of its first and last shifts is worked. */
  predicate Split(a: Assignment, b: nat, day: nat, first: string, last: string)
  {
    a.x(b, day, first) != a.x(b, day, last)
  }

  /** The number of split days before `k`. */
  function SplitDays(a: Assignment, b: nat, k: nat, first: string, last: string): nat
  {
    if k == 0 then 0 else SplitDays(a, b, k - 1, first, last) + (if Split(a, b, k - 1, first, last) then 1 else 0)
  }

  lemma XorOfThree(a: Assignment, p: Lit, q: Lit, r: Lit)
    ensures CountTrue(a, [p, q, r]) ==
      (if LitHolds(a, p) then 1 else 0) + (if LitHolds(a, q) then 1 else 0) + (if LitHolds(a, r) then 1 else 0)
  {
    assert [p, q, r][1..] == [q, r];
    assert [q, r][1..] == [r];
    assert [r][1..] == [];
    assert CountTrue(a, [r]) == (if LitHolds(a, r) then 1 else 0) + CountTrue(a, []);
    assert CountTrue(a, [q, r]) == (if LitHolds(a, q) then 1 else 0) + CountTrue(a, [r]);
  }

  /** The flag is "the day is split", and only a set flag forces the penalty up to 2. */
  lemma FullDayAtHolds(a: Assignment, b: nat, day: nat, first: string, last: string)
    ensures AllHold(a, FullDayAt(b, day, first, last).cs) <==>
      a.aux(b, FullDayViolated(day)) == (if Split(a, b, day, first, last) then 1 else 0) &&
      0 <= a.aux(b, HalfDayPenalty(day)) <= 16 &&
      (a.aux(b, FullDayViolated(day)) == 1 ==> a.aux(b, HalfDayPenalty(day)) >= HalfDayCallPenalty)
  {
    var violated := Aux(b, FullDayViolated(day));
    var penalty := Aux(b, HalfDayPenalty(day));
    XorOfThree(a, Pos(X(b, day, first)), Pos(X(b, day, last)), Neg(violated));
    FixToHolds(a, penalty, 0);
    var cs := FullDayAt(b, day, first, last).cs;
    assert AllHold(a, cs) <==> Holds(a, cs[0]) && Holds(a, cs[1]) && Holds(a, cs[2]) && Holds(a, cs[3]);
    assert Eval(a, OfVar(penalty)) == a.aux(b, HalfDayPenalty(day)) by {
      assert SumValues(a, [penalty]) == SumValues(a, []) + Value(a, penalty);
    }
    assert AllLits(a, [Pos(violated)]) <==> a.aux(b, FullDayViolated(day)) == 1 by {
      assert [Pos(violated)][0] == Pos(violated);
    }
  }

  /** `a` with the full-day flags and penalties set as low as the constraints allow. */
  function FullDayWitness(a: Assignment, b: nat, first: string, last: string): (w: Assignment)
    ensures w.x == a.x
  {
    Assignment(a.x, (o: nat, k: AuxKind) =>
      if o == b && k.FullDayViolated? then (if Split(a, b, k.day, first, last) then 1 else 0)
      else if o == b && k.HalfDayPenalty? then (if Split(a, b, k.day, first, last) then HalfDayCallPenalty else 0)
      else a.aux(o, k))
  }

  lemma {:induction false} FullDayUpToFacts(a: Assignment, b: nat, k: nat, shifts: seq<string>)
    requires |shifts| > 0
    ensures FullDayUpTo(b, k, shifts).status == Pass
    ensures AllHold(a, FullDayUpTo(b, k, shifts).cs) ==>
      PenaltySum(a, FullDayUpTo(b, k, shifts).ps) >= HalfDayCallPenalty * SplitDays(a, b, k, shifts[0], Last(shifts))
    ensures var w := FullDayWitness(a, b, shifts[0], Last(shifts));
      AllHold(w, FullDayUpTo(b, k, shifts).cs) &&
      PenaltySum(w, FullDayUpTo(b, k, shifts).ps) == HalfDayCallPenalty * SplitDays(a, b, k, shifts[0], Last(shifts))
  {
    if k > 0 {
      var first, last := shifts[0], Last(shifts);
      var day := k - 1;
      var w := FullDayWitness(a, b, first, last);
      FullDayUpToFacts(a, b, day, shifts);
      var e1, e2 := FullDayUpTo(b, day, shifts), FullDayAt(b, day, first, last);
      AllHoldConcat(a, e1.cs, e2.cs);
      AllHoldConcat(w, e1.cs, e2.cs);
      FullDayAtHolds(a, b, day, first, last);
      FullDayAtHolds(w, b, day, first, last);
      var penalty := Aux(b, HalfDayPenalty(day));
      assert (e1.ps + [penalty])[..|e1.ps|] == e1.ps;
      assert PenaltySum(a, e1.ps + [penalty]) == PenaltySum(a, e1.ps) + a.aux(b, HalfDayPenalty(day));
      assert PenaltySum(w, e1.ps + [penalty]) == PenaltySum(w, e1.ps) + w.aux(b, HalfDayPenalty(day));
      assert Split(w, b, day, first, last) == Split(a, b, day, first, last);
    }
  }

  /**
   * `prefer_full_day_call` costs at least 2 for every split day, and exactly that when the
   * solver sets its flags and penalties as low as allowed: the cheapest completion of any
   * shift choice costs 2 per day where exactly one of the first and last shifts is worked.
   */
  lemma FullDayMinimum(a: Assignment, b: nat, n: nat, shifts: seq<string>)
    requires |shifts| > 0
    ensures FullDayUpTo(b, n, shifts).status == Pass
    ensures AllHold(a, FullDayUpTo(b, n, shifts).cs) ==>
      PenaltySum(a, FullDayUpTo(b, n, shifts).ps) >= HalfDayCallPenalty * SplitDays(a, b, n, shifts[0], Last(shifts))
    ensures var w := FullDayWitness(a, b, shifts[0], Last(shifts));
      w.x == a.x && AllHold(w, FullDayUpTo(b, n, shifts).cs) &&
      PenaltySum(w, FullDayUpTo(b, n, shifts).ps) == HalfDayCallPenalty * SplitDays(a, b, n, shifts[0], Last(shifts))
  {
    FullDayUpToFacts(a, b, n, shifts);
  }

  // ---------------------------------------------------------------- penalize_multiple_fridays

  /** The constraints and the penalty for the Friday pair `(friday, friday + 7)`. */
  function FridayPair(b: nat, friday: nat, last: string, extra: int): Emission
  {
    var conflict := Aux(b, FridayConflict(friday));
    var penalty := Aux(b, FridayPenalty(friday));
    Emission(
      [ Domain(conflict, 0, 1),
        Domain(penalty, 0, 16),
        BoolAnd([Pos(X(b, friday, last)), Pos(X(b, friday + DaysPerWeek, last))], [Pos(conflict)]),
        Linear(OfVar(penalty), Ge, Const(extra), [Pos(conflict)]) ],
      [penalty], Pass)
  }

  /** The loop over `fridays`, skipping a Friday whose next Friday is past the horizon. */
  function FridaysOver(b: nat, n: nat, last: string, extra: int, fridays: seq<nat>): Emission
  {
    if |fridays| == 0 then Done([])
    else
      var friday := Last(fridays);
      Then(FridaysOver(b, n, last, extra, fridays[..|fridays| - 1]),
        if friday + DaysPerWeek < n then FridayPair(b, friday, last, extra) else Done([]))
  }

  /** `penalize_multiple_fridays`: over the Fridays of `range(n)`. */
  function FridaysRule(b: nat, n: nat, shifts: seq<string>, extra: int): Emission
    requires |shifts| > 0
  {
    FridaysOver(b, n, Last(shifts), extra, OnWeekday(Days(n), FRIDAY))
  }

  /** Every Friday flag and penalty cleared. */
  function FridaysCleared(a: Assignment, b: nat): (w: Assignment)
    ensures w.x == a.x
  {
    Assignment(a.x, (o: nat, k: AuxKind) =>
      if o == b && (k.FridayConflict? || k.FridayPenalty?) then 0 else a.aux(o, k))
  }

  lemma FridayPairHolds(a: Assignment, b: nat, friday: nat, last: string, extra: int)
    ensures AllHold(a, FridayPair(b, friday, last, extra).cs) ==>
      (a.aux(b, FridayConflict(friday)) == 1 ==>
        a.x(b, friday, last) && a.x(b, friday + DaysPerWeek, last) && a.aux(b, FridayPenalty(friday)) >= extra)
    ensures AllHold(FridaysCleared(a, b), FridayPair(b, friday, last, extra).cs)
  {
    var conflict := Aux(b, FridayConflict(friday));
    var penalty := Aux(b, FridayPenalty(friday));
    var pair := [Pos(X(b, friday, last)), Pos(X(b, friday + DaysPerWeek, last))];
    var cs := FridayPair(b, friday, last, extra).cs;
    var w := FridaysCleared(a, b);
    assert [Pos(conflict)][0] == Pos(conflict);
    assert pair[0] == Pos(X(b, friday, last)) && pair[1] == Pos(X(b, friday + DaysPerWeek, last));
    assert SumValues(a, [penalty]) == SumValues(a, []) + Value(a, penalty);
    assert SumValues(w, [penalty]) == SumValues(w, []) + Value(w, penalty);
    assert forall c :: c in cs ==> Holds(w, c);
    if AllHold(a, cs) {
      assert Holds(a, cs[2]) && Holds(a, cs[3]);
    }
  }

  /** A set Friday flag means both Fridays' last shifts are worked and the penalty reaches `extra`. */
  lemma {:induction false} FridaysOverSound(a: Assignment, b: nat, n: nat, last: string, extra: int, fridays: seq<nat>)
    ensures FridaysOver(b, n, last, extra, fridays).status == Pass
    ensures AllHold(a, FridaysOver(b, n, last, extra, fridays).cs) ==>
      forall f :: f in fridays && f + DaysPerWeek < n && a.aux(b, FridayConflict(f)) == 1 ==>
        a.x(b, f, last) && a.x(b, f + DaysPerWeek, last) && a.aux(b, FridayPenalty(f)) >= extra
    decreases |fridays|
  {
    if |fridays| > 0 {
      var front, f := fridays[..|fridays| - 1], Last(fridays);
      assert fridays == front + [f];
      FridaysOverSound(a, b, n, last, extra, front);
      var e1 := FridaysOver(b, n, last, extra, front);
      var e2 := if f + DaysPerWeek < n then FridayPair(b, f, last, extra) else Done([]);
      AllHoldConcat(a, e1.cs, e2.cs);
      if f + DaysPerWeek < n {
        FridayPairHolds(a, b, f, last, extra);
      }
    }
  }

  /** Nothing forces a Friday flag on: clearing every flag and penalty satisfies the rule at no cost. */
  lemma {:induction false} FridaysOverCleared(a: Assignment, b: nat, n: nat, last: string, extra: int, fridays: seq<nat>)
    ensures AllHold(FridaysCleared(a, b), FridaysOver(b, n, last, extra, fridays).cs)
    ensures PenaltySum(FridaysCleared(a, b), FridaysOver(b, n, last, extra, fridays).ps) == 0
    decreases |fridays|
  {
    if |fridays| > 0 {
      var front, f := fridays[..|fridays| - 1], Last(fridays);
      var w := FridaysCleared(a, b);
      FridaysOverCleared(a, b, n, last, extra, front);
      var e1 := FridaysOver(b, n, last, extra, front);
      var e2 := if f + DaysPerWeek < n then FridayPair(b, f, last, extra) else Done([]);
      AllHoldConcat(w, e1.cs, e2.cs);
      SumValuesConcat(w, e1.ps, e2.ps);
      if f + DaysPerWeek < n {
        FridayPairHolds(a, b, f, last, extra);
        assert SumValues(w, e2.ps) == SumValues(w, []) + Value(w, Aux(b, FridayPenalty(f)));
      }
    }
  }

  /**
   * `penalize_multiple_fridays` only bounds from below: a set flag means both Fridays' last
   * shifts are worked and the penalty reaches `extra`, but whatever shifts are worked, the
   * rule is satisfied at cost 0 with every flag cleared.
   */
  lemma FridaysMinimum(a: Assignment, b: nat, n: nat, shifts: seq<string>, extra: int)
    requires |shifts| > 0
    ensures FridaysRule(b, n, shifts, extra).status == Pass
    ensures AllHold(a, FridaysRule(b, n, shifts, extra).cs) ==>
      forall f: nat :: f + DaysPerWeek < n && WeekdayOf(f) == FRIDAY && a.aux(b, FridayConflict(f)) == 1 ==>
        a.x(b, f, Last(shifts)) && a.x(b, f + DaysPerWeek, Last(shifts)) && a.aux(b, FridayPenalty(f)) >= extra
    ensures var w := FridaysCleared(a, b);
      w.x == a.x && AllHold(w, FridaysRule(b, n, shifts, extra).cs) && PenaltySum(w, FridaysRule(b, n, shifts, extra).ps) == 0
  {
    var fridays := OnWeekday(Days(n), FRIDAY);
    FridaysOverSound(a, b, n, Last(shifts), extra, fridays);
    FridaysOverCleared(a, b, n, Last(shifts), extra, fridays);
    forall f: nat | f + DaysPerWeek < n && WeekdayOf(f) == FRIDAY ensures f in fridays {
      assert Days(n)[f] == f;
    }
  }

  // ---------------------------------------------------------------- disperse_call

  /** `[x[b][day][s] for s in ss]`. */
  function DayVars(b: nat, day: nat, ss: seq<string>): seq<Var>
  {
    if |ss| == 0 then [] else DayVars(b, day, ss[..|ss| - 1]) + [X(b, day, Last(ss))]
  }

  /** `[x[b][day][s] for day in range(start, end) for s in shifts]`, day by day. */
  function SpanVars(b: nat, start: nat, end: nat, shifts: seq<string>): seq<Var>
    decreases end
  {
    if end <= start then [] else SpanVars(b, start, end - 1, shifts) + DayVars(b, end - 1, shifts)
  }

  lemma {:induction false} DayVarsMembers(b: nat, day: nat, ss: seq<string>)
    ensures forall v :: v in DayVars(b, day, ss) <==> v.X? && v.block == b && v.day == day && v.shift in ss
    decreases |ss|
  {
    if |ss| > 0 {
      DayVarsMembers(b, day, ss[..|ss| - 1]);
      assert ss == ss[..|ss| - 1] + [Last(ss)];
    }
  }

  lemma SpanVarsMembers(b: nat, start: nat, end: nat, shifts: seq<string>)
    ensures forall v :: v in SpanVars(b, start, end, shifts) <==> v.X? && v.block == b && start <= v.day < end && v.shift in shifts
  {
    forall v: Var
      ensures v in SpanVars(b, start, end, shifts) <==> v.X? && v.block == b && start <= v.day < end && v.shift in shifts
    {
      SpanVarsMember(b, start, end, shifts, v);
    }
  }

  lemma {:induction false} SpanVarsMember(b: nat, start: nat, end: nat, shifts: seq<string>, v: Var)
    ensures v in SpanVars(b, start, end, shifts) <==> v.X? && v.block == b && start <= v.day < end && v.shift in shifts
    decreases end
  {
    if start < end {
      var front, last := SpanVars(b, start, end - 1, shifts), DayVars(b, end - 1, shifts);
      assert SpanVars(b, start, end, shifts) == front + last;
      SpanVarsMember(b, start, end - 1, shifts, v);
      DayVarsMembers(b, end - 1, shifts);
      assert v in front + last <==> v in front || v in last;
    }
  }

  /** `weekly_calls`: the decision variables of the seven days of week `week`. */
  function WeekCalls(b: nat, week: nat, shifts: seq<string>): seq<Var>
  {
    SpanVars(b, 7 * week, 7 * week + 7, shifts)
  }

  /** The week's calls are the shifts of its seven days and nothing else. */
  lemma WeekCallsMembers(b: nat, week: nat, shifts: seq<string>)
    ensures forall v :: v in WeekCalls(b, week, shifts) <==>
      v.X? && v.block == b && 7 * week <= v.day < 7 * week + 7 && v.shift in shifts
  {
    SpanVarsMembers(b, 7 * week, 7 * week + 7, shifts);
  }

  /** One pass of the inner loop: the tier flag for `i` calls and its penalty bound. */
  function Tier(b: nat, week: nat, calls: seq<Var>, i: int): seq<Constraint>
  {
    var exceeds := Aux(b, WeeklyExceeds(week, i));
    [ Domain(exceeds, 0, 1),
      Linear(SumOf(calls), Ge, Const(i), [Pos(exceeds)]),
      Linear(OfVar(Aux(b, WeeklyPenalty(week))), Ge, Const(2 * i), [Pos(exceeds)]) ]
  }

  /** `for i in range(lo, hi)`: each pass appends the week's penalty once more. */
  function Tiers(b: nat, week: nat, calls: seq<Var>, lo: int, hi: int): Emission
    decreases hi - lo
  {
    if hi <= lo then Done([])
    else Then(Tiers(b, week, calls, lo, hi - 1), Emission(Tier(b, week, calls, hi - 1), [Aux(b, WeeklyPenalty(week))], Pass))
  }

  /** The week's flag, its two enforced comparisons and the week's penalty variable. */
  function WeekHead(b: nat, week: nat, calls: seq<Var>, maxPerWeek: int): seq<Constraint>
  {
    var exceeds := Aux(b, ExceedsMax(week));
    [ Domain(exceeds, 0, 1),
      Linear(SumOf(calls), Le, Const(maxPerWeek), [Neg(exceeds)]),
      Linear(SumOf(calls), Gt, Const(maxPerWeek), [Pos(exceeds)]),
      Domain(Aux(b, WeeklyPenalty(week)), 0, 7) ]
  }

  /** One pass of the outer loop of `disperse_call`. */
  function WeekRule(b: nat, week: nat, shifts: seq<string>, maxPerWeek: int): Emission
  {
    var calls := WeekCalls(b, week, shifts);
    Then(Done(WeekHead(b, week, calls, maxPerWeek)), Tiers(b, week, calls, maxPerWeek + 1, 7))
  }

  function DisperseUpTo(b: nat, weeks: nat, shifts: seq<string>, maxPerWeek: int): Emission
  {
    if weeks == 0 then Done([]) else Then(DisperseUpTo(b, weeks - 1, shifts, maxPerWeek), WeekRule(b, weeks - 1, shifts, maxPerWeek))
  }

  /** `disperse_call` over the `n // 7` whole weeks of the horizon. */
  function DisperseRule(b: nat, n: nat, shifts: seq<string>, maxPerWeek: int): Emission
  {
    DisperseUpTo(b, n / DaysPerWeek, shifts, maxPerWeek)
  }

  /** The number of calls in week `week` under `a`. */
  function WeeklyCalls(a: Assignment, b: nat, week: nat, shifts: seq<string>): int
  {
    SumValues(a, WeekCalls(b, week, shifts))
  }

  /** `a` with every tier flag and weekly penalty cleared and each week's flag set to whether it exceeds the maximum. */
  function DisperseWitness(a: Assignment, b: nat, shifts: seq<string>, maxPerWeek: int): (w: Assignment)
    ensures w.x == a.x
  {
    Assignment(a.x, (o: nat, k: AuxKind) =>
      if o == b && (k.WeeklyExceeds? || k.WeeklyPenalty?) then 0
      else if o == b && k.ExceedsMax? then (if WeeklyCalls(a, b, k.week, shifts) > maxPerWeek then 1 else 0)
      else a.aux(o, k))
  }

  /** The number of passes of `for i in range(lo, hi)`. */
  function Passes(lo: int, hi: int): nat
  {
    if hi <= lo then 0 else hi - lo
  }

  lemma {:induction false} TiersPenalties(b: nat, week: nat, calls: seq<Var>, lo: int, hi: int)
    ensures Tiers(b, week, calls, lo, hi).status == Pass
    ensures |Tiers(b, week, calls, lo, hi).ps| == Passes(lo, hi)
    ensures forall j :: 0 <= j < |Tiers(b, week, calls, lo, hi).ps| ==> Tiers(b, week, calls, lo, hi).ps[j] == Aux(b, WeeklyPenalty(week))
    decreases hi - lo
  {
    if lo < hi {
      TiersPenalties(b, week, calls, lo, hi - 1);
    }
  }

  lemma {:induction false} TiersSound(a: Assignment, b: nat, week: nat, calls: seq<Var>, lo: int, hi: int)
    ensures AllHold(a, Tiers(b, week, calls, lo, hi).cs) ==>
      forall i :: lo <= i < hi && a.aux(b, WeeklyExceeds(week, i)) == 1 ==>
        SumValues(a, calls) >= i && a.aux(b, WeeklyPenalty(week)) >= 2 * i
    decreases hi - lo
  {
    if lo < hi {
      var e1 := Tiers(b, week, calls, lo, hi - 1);
      var cs := Tier(b, week, calls, hi - 1);
      TiersPenalties(b, week, calls, lo, hi - 1);
      TiersSound(a, b, week, calls, lo, hi - 1);
      AllHoldConcat(a, e1.cs, cs);
      var exceeds := Aux(b, WeeklyExceeds(week, hi - 1));
      LinearGuarded(a, Pos(exceeds), SumOf(calls), Ge, Const(hi - 1));
      LinearGuarded(a, Pos(exceeds), OfVar(Aux(b, WeeklyPenalty(week))), Ge, Const(2 * (hi - 1)));
      EvalOfVar(a, Aux(b, WeeklyPenalty(week)));
      if AllHold(a, e1.cs + cs) {
        assert Holds(a, cs[1]) && Holds(a, cs[2]);
      }
    }
  }

  lemma {:induction false} TiersCleared(a: Assignment, w: Assignment, b: nat, week: nat, calls: seq<Var>, lo: int, hi: int)
    requires forall i :: w.aux(b, WeeklyExceeds(week, i)) == 0
    requires w.aux(b, WeeklyPenalty(week)) == 0
    ensures AllHold(w, Tiers(b, week, calls, lo, hi).cs)
    decreases hi - lo
  {
    if lo < hi {
      var e1 := Tiers(b, week, calls, lo, hi - 1);
      var cs := Tier(b, week, calls, hi - 1);
      TiersPenalties(b, week, calls, lo, hi - 1);
      TiersCleared(a, w, b, week, calls, lo, hi - 1);
      AllHoldConcat(w, e1.cs, cs);
      var exceeds := Aux(b, WeeklyExceeds(week, hi - 1));
      LinearGuarded(w, Pos(exceeds), SumOf(calls), Ge, Const(hi - 1));
      LinearGuarded(w, Pos(exceeds), OfVar(Aux(b, WeeklyPenalty(week))), Ge, Const(2 * (hi - 1)));
      assert w.aux(b, WeeklyExceeds(week, hi - 1)) == 0;
    }
  }

  /** Every entry of the penalty list of `Tiers` is the week's penalty, so the objective counts it once per pass. */
  lemma TiersObjective(a: Assignment, b: nat, week: nat, calls: seq<Var>, lo: int, hi: int)
    ensures PenaltySum(a, Tiers(b, week, calls, lo, hi).ps) == Passes(lo, hi) * a.aux(b, WeeklyPenalty(week))
  {
    TiersPenalties(b, week, calls, lo, hi);
    SumValuesRepeated(a, Tiers(b, week, calls, lo, hi).ps, Aux(b, WeeklyPenalty(week)));
  }

  /** The objective counts the week's penalty once per tier. */
  lemma WeekRuleObjective(a: Assignment, b: nat, week: nat, shifts: seq<string>, maxPerWeek: int)
    ensures PenaltySum(a, WeekRule(b, week, shifts, maxPerWeek).ps) == Passes(maxPerWeek + 1, 7) * a.aux(b, WeeklyPenalty(week))
  {
    WeekRulePass(b, week, shifts, maxPerWeek);
    TiersObjective(a, b, week, WeekCalls(b, week, shifts), maxPerWeek + 1, 7);
  }

  /**
   * One week of `disperse_call`: its flag is set exactly when the week holds more than the
   * maximum number of calls, and a set tier flag `i` forces at least `i` calls and a
   * penalty of at least `2 * i`.
   */
  lemma WeekRuleSound(a: Assignment, b: nat, week: nat, shifts: seq<string>, maxPerWeek: int)
    ensures AllHold(a, WeekRule(b, week, shifts, maxPerWeek).cs) ==>
      && (a.aux(b, ExceedsMax(week)) == 1 <==> WeeklyCalls(a, b, week, shifts) > maxPerWeek)
      && 0 <= a.aux(b, ExceedsMax(week)) <= 1
      && 0 <= a.aux(b, WeeklyPenalty(week)) <= 7
      && forall i :: maxPerWeek + 1 <= i < 7 && a.aux(b, WeeklyExceeds(week, i)) == 1 ==>
           WeeklyCalls(a, b, week, shifts) >= i && a.aux(b, WeeklyPenalty(week)) >= 2 * i
  {
    var calls := WeekCalls(b, week, shifts);
    var exceeds := Aux(b, ExceedsMax(week));
    var head := WeekHead(b, week, calls, maxPerWeek);
    var tiers := Tiers(b, week, calls, maxPerWeek + 1, 7);
    TiersSound(a, b, week, calls, maxPerWeek + 1, 7);
    AllHoldConcat(a, head, tiers.cs);
    LinearGuarded(a, Neg(exceeds), SumOf(calls), Le, Const(maxPerWeek));
    LinearGuarded(a, Pos(exceeds), SumOf(calls), Gt, Const(maxPerWeek));
    if AllHold(a, head) {
      assert Holds(a, head[0]) && Holds(a, head[1]) && Holds(a, head[2]) && Holds(a, head[3]);
    }
  }

  lemma WeekRuleCleared(a: Assignment, b: nat, week: nat, shifts: seq<string>, maxPerWeek: int)
    ensures AllHold(DisperseWitness(a, b, shifts, maxPerWeek), WeekRule(b, week, shifts, maxPerWeek).cs)
  {
    var w := DisperseWitness(a, b, shifts, maxPerWeek);
    var calls := WeekCalls(b, week, shifts);
    var exceeds := Aux(b, ExceedsMax(week));
    var head := WeekHead(b, week, calls, maxPerWeek);
    TiersCleared(a, w, b, week, calls, maxPerWeek + 1, 7);
    AllHoldConcat(w, head, Tiers(b, week, calls, maxPerWeek + 1, 7).cs);
    assert forall i :: 0 <= i < |calls| ==> calls[i].X? by {
      WeekCallsMembers(b, week, shifts);
      forall i | 0 <= i < |calls| ensures calls[i].X? { assert calls[i] in calls; }
    }
    SumValuesOfDecisions(a, w, calls);
    LinearGuarded(w, Neg(exceeds), SumOf(calls), Le, Const(maxPerWeek));
    LinearGuarded(w, Pos(exceeds), SumOf(calls), Gt, Const(maxPerWeek));
    assert Eval(w, SumOf(calls)) == WeeklyCalls(a, b, week, shifts);
    assert Eval(w, Const(maxPerWeek)) == maxPerWeek;
    assert Value(w, exceeds) == if WeeklyCalls(a, b, week, shifts) > maxPerWeek then 1 else 0;
    assert Holds(w, head[0]) && Holds(w, head[1]) && Holds(w, head[2]) && Holds(w, head[3]);
  }

  lemma WeekRulePass(b: nat, week: nat, shifts: seq<string>, maxPerWeek: int)
    ensures WeekRule(b, week, shifts, maxPerWeek).status == Pass
    ensures WeekRule(b, week, shifts, maxPerWeek).ps == Tiers(b, week, WeekCalls(b, week, shifts), maxPerWeek + 1, 7).ps
  {
    TiersPenalties(b, week, WeekCalls(b, week, shifts), maxPerWeek + 1, 7);
  }

  lemma {:induction false} DisperseUpToPass(b: nat, weeks: nat, shifts: seq<string>, maxPerWeek: int)
    ensures DisperseUpTo(b, weeks, shifts, maxPerWeek).status == Pass
    decreases weeks
  {
    if weeks > 0 {
      DisperseUpToPass(b, weeks - 1, shifts, maxPerWeek);
      WeekRulePass(b, weeks - 1, shifts, maxPerWeek);
    }
  }

  /** Every entry of `ps` is the weekly penalty of some week before `weeks`. */
  predicate WeeklyPenaltiesBefore(ps: seq<Var>, b: nat, weeks: nat)
  {
    forall j :: 0 <= j < |ps| ==> ps[j].Aux? && ps[j].owner == b && ps[j].kind.WeeklyPenalty? && ps[j].kind.week < weeks
  }

  /** Appending week `weeks - 1`'s `p` penalty terms to those of the earlier weeks. */
  lemma WeeklyPenaltiesAppend(front: seq<Var>, last: seq<Var>, b: nat, weeks: nat, p: nat)
    requires weeks > 0
    requires |front| == (weeks - 1) * p && WeeklyPenaltiesBefore(front, b, weeks - 1)
    requires |last| == p && forall j :: 0 <= j < |last| ==> last[j] == Aux(b, WeeklyPenalty(weeks - 1))
    ensures |front + last| == weeks * p
    ensures WeeklyPenaltiesBefore(front + last, b, weeks)
  {
    OneMore(weeks - 1, p);
    var ps := front + last;
    forall j | 0 <= j < |ps| ensures ps[j].Aux? && ps[j].owner == b && ps[j].kind.WeeklyPenalty? && ps[j].kind.week < weeks {
      if j >= |front| {
        assert ps[j] == last[j - |front|];
      } else {
        assert ps[j] == front[j];
      }
    }
  }

  /** The penalty terms of the first `weeks` weeks: `max(0, 6 - max)` copies of each week's penalty. */
  lemma {:induction false} DisperseUpToPenalties(b: nat, weeks: nat, shifts: seq<string>, maxPerWeek: int)
    ensures |DisperseUpTo(b, weeks, shifts, maxPerWeek).ps| == weeks * Passes(maxPerWeek + 1, 7)
    ensures WeeklyPenaltiesBefore(DisperseUpTo(b, weeks, shifts, maxPerWeek).ps, b, weeks)
    decreases weeks
  {
    if weeks > 0 {
      var front := DisperseUpTo(b, weeks - 1, shifts, maxPerWeek).ps;
      var last := Tiers(b, weeks - 1, WeekCalls(b, weeks - 1, shifts), maxPerWeek + 1, 7).ps;
      DisperseUpToPass(b, weeks - 1, shifts, maxPerWeek);
      DisperseUpToPenalties(b, weeks - 1, shifts, maxPerWeek);
      TiersPenalties(b, weeks - 1, WeekCalls(b, weeks - 1, shifts), maxPerWeek + 1, 7);
      WeekRulePass(b, weeks - 1, shifts, maxPerWeek);
      assert DisperseUpTo(b, weeks, shifts, maxPerWeek).ps == front + last;
      WeeklyPenaltiesAppend(front, last, b, weeks, Passes(maxPerWeek + 1, 7));
    }
  }

  /** An assignment meeting every week's constraints meets those of the first `weeks` weeks. */
  lemma {:induction false} DisperseUpToCleared(w: Assignment, b: nat, weeks: nat, shifts: seq<string>, maxPerWeek: int)
    requires forall week: nat :: AllHold(w, WeekRule(b, week, shifts, maxPerWeek).cs)
    ensures AllHold(w, DisperseUpTo(b, weeks, shifts, maxPerWeek).cs)
    decreases weeks
  {
    if weeks > 0 {
      var front := DisperseUpTo(b, weeks - 1, shifts, maxPerWeek);
      var last := WeekRule(b, weeks - 1, shifts, maxPerWeek);
      DisperseUpToPass(b, weeks - 1, shifts, maxPerWeek);
      DisperseUpToCleared(w, b, weeks - 1, shifts, maxPerWeek);
      AllHoldThen(w, front, last);
    }
  }

  /** The constraints of every week are among those of the first `weeks` weeks. */
  lemma {:induction false} DisperseUpToWeek(a: Assignment, b: nat, weeks: nat, shifts: seq<string>, maxPerWeek: int, week: nat)
    requires week < weeks
    ensures AllHold(a, DisperseUpTo(b, weeks, shifts, maxPerWeek).cs) ==> AllHold(a, WeekRule(b, week, shifts, maxPerWeek).cs)
    decreases weeks
  {
    var front := DisperseUpTo(b, weeks - 1, shifts, maxPerWeek);
    var last := WeekRule(b, weeks - 1, shifts, maxPerWeek);
    DisperseUpToPass(b, weeks - 1, shifts, maxPerWeek);
    AllHoldThen(a, front, last);
    if week < weeks - 1 {
      DisperseUpToWeek(a, b, weeks - 1, shifts, maxPerWeek, week);
    }
  }

  /**
   * `disperse_call` over the whole weeks of the horizon: each week's flag is set exactly
   * when the week holds more than `max_shifts_per_week` calls, and a set tier flag `i`
   * forces at least `i` calls that week and a weekly penalty of at least `2 * i`.
   */
  lemma DisperseSound(a: Assignment, b: nat, n: nat, shifts: seq<string>, maxPerWeek: int)
    requires AllHold(a, DisperseRule(b, n, shifts, maxPerWeek).cs)
    ensures forall week: nat :: week < n / DaysPerWeek ==>
      && (a.aux(b, ExceedsMax(week)) == 1 <==> WeeklyCalls(a, b, week, shifts) > maxPerWeek)
      && forall i :: maxPerWeek + 1 <= i < 7 && a.aux(b, WeeklyExceeds(week, i)) == 1 ==>
           WeeklyCalls(a, b, week, shifts) >= i && a.aux(b, WeeklyPenalty(week)) >= 2 * i
  {
    forall week: nat | week < n / DaysPerWeek
      ensures a.aux(b, ExceedsMax(week)) == 1 <==> WeeklyCalls(a, b, week, shifts) > maxPerWeek
      ensures forall i :: maxPerWeek + 1 <= i < 7 && a.aux(b, WeeklyExceeds(week, i)) == 1 ==>
           WeeklyCalls(a, b, week, shifts) >= i && a.aux(b, WeeklyPenalty(week)) >= 2 * i
    {
      DisperseUpToWeek(a, b, n / DaysPerWeek, shifts, maxPerWeek, week);
      WeekRuleSound(a, b, week, shifts, maxPerWeek);
    }
  }

  /**
   * `disperse_call` never raises and adds `max(0, 6 - max_shifts_per_week)` penalty terms
   * per whole week; every term can be 0 however many calls a week holds, because the tier
   * flags only bound the penalty from below and nothing forces a flag on.
   */
  lemma DisperseMinimum(a: Assignment, b: nat, n: nat, shifts: seq<string>, maxPerWeek: int)
    ensures DisperseRule(b, n, shifts, maxPerWeek).status == Pass
    ensures |DisperseRule(b, n, shifts, maxPerWeek).ps| == (n / DaysPerWeek) * Passes(maxPerWeek + 1, 7)
    ensures var w := DisperseWitness(a, b, shifts, maxPerWeek);
      w.x == a.x && AllHold(w, DisperseRule(b, n, shifts, maxPerWeek).cs) &&
      PenaltySum(w, DisperseRule(b, n, shifts, maxPerWeek).ps) == 0
  {
    var w := DisperseWitness(a, b, shifts, maxPerWeek);
    var ps := DisperseRule(b, n, shifts, maxPerWeek).ps;
    DisperseUpToPass(b, n / DaysPerWeek, shifts, maxPerWeek);
    DisperseUpToPenalties(b, n / DaysPerWeek, shifts, maxPerWeek);
    forall week: nat ensures AllHold(w, WeekRule(b, week, shifts, maxPerWeek).cs) {
      WeekRuleCleared(a, b, week, shifts, maxPerWeek);
    }
    DisperseUpToCleared(w, b, n / DaysPerWeek, shifts, maxPerWeek);
    assert forall i :: 0 <= i < |ps| ==> Value(w, ps[i]) == 0;
    PenaltiesZero(w, ps);
  }

  lemma {:induction false} PenaltiesZero(a: Assignment, ps: seq<Var>)
    requires forall i :: 0 <= i < |ps| ==> Value(a, ps[i]) == 0
    ensures PenaltySum(a, ps) == 0
    decreases |ps|
  {
    if |ps| > 0 {
      PenaltiesZero(a, ps[..|ps| - 1]);
    }
  }
}
