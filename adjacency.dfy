/**
 * The rules that relate consecutive days: no call on the day after a last shift
 * (`post_call_days`), and a Friday last shift committing the resident to every shift of a
 * later day (`friday_implies_sunday`, `friday_implies_saturday`, `multiday_implication`).
 */
module Adjacency {
  import opened Wrappers
  import opened CpModel
  import opened Calendar
  import opened Lists

  // ---------------------------------------------------------------- post_call_days

  /** `for shift in ss: AddAtMostOne(x[b][day][last], x[b][day + 1][shift])`. */
  function PostCallDay(b: nat, day: nat, last: string, ss: seq<string>): seq<Constraint>
  {
    if |ss| == 0 then []
    else PostCallDay(b, day, last, ss[..|ss| - 1]) + [AtMostOne([Pos(X(b, day, last)), Pos(X(b, day + 1, Last(ss)))])]
  }

  /** The loop over `range(k)`, skipping the days whose weekday is `ignore`. */
  function PostCallUpTo(b: nat, k: nat, shifts: seq<string>, ignore: Option<nat>): seq<Constraint>
    requires |shifts| > 0
  {
    if k == 0 then []
    else
      var day := k - 1;
      PostCallUpTo(b, day, shifts, ignore) + (if ignore == Some(WeekdayOf(day)) then [] else PostCallDay(b, day, Last(shifts), shifts))
  }

  /** `post_call_days(resident, ignore)` over `range(num_days - 1)`. */
  function PostCallRule(b: nat, n: nat, shifts: seq<string>, ignore: Option<nat>): seq<Constraint>
    requires |shifts| > 0
  {
    PostCallUpTo(b, if n == 0 then 0 else n - 1, shifts, ignore)
  }

  lemma {:induction false} PostCallDayHolds(a: Assignment, b: nat, day: nat, last: string, ss: seq<string>)
    ensures AllHold(a, PostCallDay(b, day, last, ss)) <==>
      forall s :: s in ss ==> !(a.x(b, day, last) && a.x(b, day + 1, s))
    decreases |ss|
  {
    if |ss| > 0 {
      var front, s := ss[..|ss| - 1], Last(ss);
      assert ss == front + [s];
      PostCallDayHolds(a, b, day, last, front);
      var c := AtMostOne([Pos(X(b, day, last)), Pos(X(b, day + 1, s))]);
      AllHoldConcat(a, PostCallDay(b, day, last, front), [c]);
      AllHoldOne(a, c);
      AtMostOneOfTwo(a, Pos(X(b, day, last)), Pos(X(b, day + 1, s)));
      assert s in ss && forall t :: t in front ==> t in ss;
      assert LitHolds(a, Pos(X(b, day, last))) == a.x(b, day, last);
      assert LitHolds(a, Pos(X(b, day + 1, s))) == a.x(b, day + 1, s);
    }
  }

  lemma {:induction false} PostCallUpToHolds(a: Assignment, b: nat, k: nat, shifts: seq<string>, ignore: Option<nat>)
    requires |shifts| > 0
    ensures AllHold(a, PostCallUpTo(b, k, shifts, ignore)) <==>
      forall d: nat, s :: d < k && ignore != Some(WeekdayOf(d)) && s in shifts ==>
        !(a.x(b, d, Last(shifts)) && a.x(b, d + 1, s))
  {
    if k > 0 {
      var day := k - 1;
      PostCallUpToHolds(a, b, day, shifts, ignore);
      PostCallDayHolds(a, b, day, Last(shifts), shifts);
      AllHoldConcat(a, PostCallUpTo(b, day, shifts, ignore),
        if ignore == Some(WeekdayOf(day)) then [] else PostCallDay(b, day, Last(shifts), shifts));
    }
  }

  /**
   * After a last shift on day `d`, no shift of day `d + 1` is worked, for every `d + 1` in
   * the horizon whose weekday `d % 7` is not `ignore`.
   */
  lemma PostCallHolds(a: Assignment, b: nat, n: nat, shifts: seq<string>, ignore: Option<nat>)
    requires |shifts| > 0
    ensures AllHold(a, PostCallRule(b, n, shifts, ignore)) <==>
      forall d: nat, s :: d + 1 < n && ignore != Some(WeekdayOf(d)) && s in shifts ==>
        !(a.x(b, d, Last(shifts)) && a.x(b, d + 1, s))
  {
    PostCallUpToHolds(a, b, if n == 0 then 0 else n - 1, shifts, ignore);
  }

  // ---------------------------------------------------------------- implications

  /** `for shift in ss: AddImplication(x[b][day][last], x[b][day + gap][shift])`; the second index may be out of range. */
  function ImplicationDay(b: nat, n: nat, last: string, day: nat, gap: nat, ss: seq<string>): Emission
  {
    if |ss| == 0 then Done([])
    else
      Then(ImplicationDay(b, n, last, day, gap, ss[..|ss| - 1]),
        if day + gap < n then Done([Implication(Pos(X(b, day, last)), Pos(X(b, day + gap, Last(ss))))])
        else Emission([], [], Fail(IndexError)))
  }

  /** The loop over `range(k)`, acting on the days whose weekday is `first`. */
  function ImplicationUpTo(b: nat, n: nat, shifts: seq<string>, first: int, gap: nat, k: nat): Emission
    requires |shifts| > 0
  {
    if k == 0 then Done([])
    else
      var day := k - 1;
      Then(ImplicationUpTo(b, n, shifts, first, gap, day),
        if WeekdayOf(day) == first then ImplicationDay(b, n, Last(shifts), day, gap, shifts) else Done([]))
  }

  /** A last shift on a day of weekday `first` implies every shift `gap` days later. */
  function ImplicationRule(b: nat, n: nat, shifts: seq<string>, first: int, gap: nat): Emission
    requires |shifts| > 0
  {
    ImplicationUpTo(b, n, shifts, first, gap, n)
  }

  /** `friday_implies_sunday`: the junior rule. */
  function FridayImpliesSunday(b: nat, n: nat, shifts: seq<string>): Emission
    requires |shifts| > 0
  {
    ImplicationRule(b, n, shifts, FRIDAY, 2)
  }

  /** `friday_implies_saturday`: the senior rule. */
  function FridayImpliesSaturday(b: nat, n: nat, shifts: seq<string>): Emission
    requires |shifts| > 0
  {
    ImplicationRule(b, n, shifts, FRIDAY, 1)
  }

  /** `multiday_implication(first, second)`: the gap is `(second - first) % 7`. */
  function MultidayImplication(b: nat, n: nat, shifts: seq<string>, first: int, second: int): Emission
    requires |shifts| > 0
  {
    ImplicationRule(b, n, shifts, first, (second - first) % DaysPerWeek)
  }

  /** Once a shift of the day raises, the later shifts add nothing: the emission is the one at the raise. */
  lemma {:induction false} ImplicationDayFailStays(b: nat, n: nat, last: string, day: nat, gap: nat, ss: seq<string>, j: nat)
    requires j <= |ss| && ImplicationDay(b, n, last, day, gap, ss[..j]).status.Fail?
    ensures ImplicationDay(b, n, last, day, gap, ss) == ImplicationDay(b, n, last, day, gap, ss[..j])
    decreases |ss|
  {
    if j < |ss| {
      var front := ss[..|ss| - 1];
      assert front[..j] == ss[..j];
      ImplicationDayFailStays(b, n, last, day, gap, front, j);
    } else {
      assert ss[..j] == ss;
    }
  }

  /** Once a day raises, the later days add nothing. */
  lemma {:induction false} ImplicationUpToFailStays(b: nat, n: nat, shifts: seq<string>, first: int, gap: nat, k: nat, m: nat)
    requires |shifts| > 0
    requires k <= m && ImplicationUpTo(b, n, shifts, first, gap, k).status.Fail?
    ensures ImplicationUpTo(b, n, shifts, first, gap, m) == ImplicationUpTo(b, n, shifts, first, gap, k)
    decreases m
  {
    if k < m {
      ImplicationUpToFailStays(b, n, shifts, first, gap, k, m - 1);
    }
  }

  /** Every day of weekday `first` before `k` has its partner day inside the horizon. */
  ghost predicate PartnersInRange(n: nat, first: int, gap: nat, k: nat)
  {
    forall d: nat :: d < k && WeekdayOf(d) == first ==> d + gap < n
  }

  lemma {:induction false} ImplicationDayHolds(a: Assignment, b: nat, n: nat, last: string, day: nat, gap: nat, ss: seq<string>)
    requires |ss| > 0
    ensures ImplicationDay(b, n, last, day, gap, ss).status == if day + gap < n then Pass else Fail(IndexError)
    ensures ImplicationDay(b, n, last, day, gap, ss).ps == []
    ensures day + gap < n ==>
      (AllHold(a, ImplicationDay(b, n, last, day, gap, ss).cs) <==>
        forall s :: s in ss ==> (a.x(b, day, last) ==> a.x(b, day + gap, s)))
    decreases |ss|
  {
    var front, s := ss[..|ss| - 1], Last(ss);
    assert ss == front + [s];
    if |front| > 0 {
      ImplicationDayHolds(a, b, n, last, day, gap, front);
    }
    if day + gap < n {
      var c := Implication(Pos(X(b, day, last)), Pos(X(b, day + gap, s)));
      AllHoldConcat(a, ImplicationDay(b, n, last, day, gap, front).cs, [c]);
      AllHoldOne(a, c);
      assert s in ss && forall t :: t in front ==> t in ss;
      assert LitHolds(a, Pos(X(b, day, last))) == a.x(b, day, last);
      assert LitHolds(a, Pos(X(b, day + gap, s))) == a.x(b, day + gap, s);
    }
  }

  lemma {:induction false} ImplicationUpToHolds(a: Assignment, b: nat, n: nat, shifts: seq<string>, first: int, gap: nat, k: nat)
    requires |shifts| > 0
    ensures ImplicationUpTo(b, n, shifts, first, gap, k).status.Pass? <==> PartnersInRange(n, first, gap, k)
    ensures ImplicationUpTo(b, n, shifts, first, gap, k).status.Fail? ==>
      ImplicationUpTo(b, n, shifts, first, gap, k).status.error == IndexError
    ensures ImplicationUpTo(b, n, shifts, first, gap, k).ps == []
    ensures PartnersInRange(n, first, gap, k) ==>
      (AllHold(a, ImplicationUpTo(b, n, shifts, first, gap, k).cs) <==>
        forall d: nat, s :: d < k && WeekdayOf(d) == first && s in shifts ==>
          (a.x(b, d, Last(shifts)) ==> a.x(b, d + gap, s)))
  {
    if k > 0 {
      var day := k - 1;
      ImplicationUpToHolds(a, b, n, shifts, first, gap, day);
      var e1 := ImplicationUpTo(b, n, shifts, first, gap, day);
      var e2 := if WeekdayOf(day) == first then ImplicationDay(b, n, Last(shifts), day, gap, shifts) else Done([]);
      if WeekdayOf(day) == first {
        ImplicationDayHolds(a, b, n, Last(shifts), day, gap, shifts);
      }
      if e1.status.Pass? {
        AllHoldConcat(a, e1.cs, e2.cs);
      }
      if PartnersInRange(n, first, gap, day) && !PartnersInRange(n, first, gap, k) {
        assert WeekdayOf(day) == first && day + gap >= n;
      }
    }
  }

  /**
   * The rule raises `IndexError` exactly when a day of weekday `first` has its partner
   * `gap` days later past the horizon; otherwise its constraints hold exactly when a last
   * shift on such a day comes with every shift of the partner day.
   */
  lemma ImplicationHolds(a: Assignment, b: nat, n: nat, shifts: seq<string>, first: int, gap: nat)
    requires |shifts| > 0
    ensures ImplicationRule(b, n, shifts, first, gap).status.Pass? <==> PartnersInRange(n, first, gap, n)
    ensures ImplicationRule(b, n, shifts, first, gap).status.Fail? ==>
      ImplicationRule(b, n, shifts, first, gap).status.error == IndexError
    ensures ImplicationRule(b, n, shifts, first, gap).ps == []
    ensures PartnersInRange(n, first, gap, n) ==>
      (AllHold(a, ImplicationRule(b, n, shifts, first, gap).cs) <==>
        forall d: nat, s :: d < n && WeekdayOf(d) == first && s in shifts ==>
          (a.x(b, d, Last(shifts)) ==> a.x(b, d + gap, s)))
  {
    ImplicationUpToHolds(a, b, n, shifts, first, gap, n);
  }

  /** Friday-implies-Sunday raises exactly when the horizon ends on a Friday or a Saturday. */
  lemma SundayPartnersInRange(n: nat)
    ensures PartnersInRange(n, FRIDAY, 2, n) <==> WeekdayOf(n) != SATURDAY && WeekdayOf(n) != SUNDAY
  {
    if WeekdayOf(n) == SATURDAY {
      NextWeekday(n - 1);
      assert WeekdayOf(n - 1) == FRIDAY && n - 1 + 2 >= n;
    } else if WeekdayOf(n) == SUNDAY {
      NextWeekday(n - 1);
      NextWeekday(n - 2);
      assert WeekdayOf(n - 2) == FRIDAY && n - 2 + 2 >= n;
    } else {
      forall d: nat | d < n && WeekdayOf(d) == FRIDAY ensures d + 2 < n {
        NextWeekday(d);
        NextWeekday(d + 1);
      }
    }
  }

  /** Friday-implies-Saturday raises exactly when the horizon ends on a Friday. */
  lemma SaturdayPartnersInRange(n: nat)
    ensures PartnersInRange(n, FRIDAY, 1, n) <==> WeekdayOf(n) != SATURDAY
  {
    if WeekdayOf(n) == SATURDAY {
      NextWeekday(n - 1);
      assert WeekdayOf(n - 1) == FRIDAY && n - 1 + 1 >= n;
    } else {
      forall d: nat | d < n && WeekdayOf(d) == FRIDAY ensures d + 1 < n {
        NextWeekday(d);
      }
    }
  }
}
