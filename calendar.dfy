/**
 * The scheduler's calendar: day `d` of the horizon `[0, numDays)` falls on weekday `d % 7`,
 * day 0 being a Monday whatever the start date is. Working days are Monday to Friday,
 * listed weekday by weekday (all Mondays first); holidays move a working day to the
 * weekend-and-holiday list and sort both lists.
 */
module Calendar {
  import opened Wrappers
  import opened Lists

  const MONDAY: nat := 0
  const WEDNESDAY: nat := 2
  const FRIDAY: nat := 4
  const SATURDAY: nat := 5
  const SUNDAY: nat := 6
  const DaysPerWeek: nat := 7

  /** The weekday of day `d`: day 0 is a Monday. */
  function WeekdayOf(d: nat): nat
  {
    d % DaysPerWeek
  }

  /** `list(range(n))`, the scheduler's `days`. */
  function Days(n: nat): (r: seq<nat>)
    ensures |r| == n && forall i :: 0 <= i < n ==> r[i] == i
  {
    seq(n, i requires 0 <= i => i)
  }

  /** `build_weekday_list`: `list(range(wd, n, 7))`. */
  function WeekdayList(wd: nat, n: nat): (r: seq<nat>)
    decreases n - wd
  {
    if wd >= n then [] else [wd] + WeekdayList(wd + DaysPerWeek, n)
  }

  lemma WeekdayFacts(wd: nat, d: nat)
    requires wd < DaysPerWeek
    ensures wd % 7 == wd && d % 7 <= d
  {
  }

  /** The day after a Sunday is a Monday; any other day is followed by the next weekday. */
  lemma NextWeekday(d: nat)
    ensures WeekdayOf(d + 1) == if WeekdayOf(d) == SUNDAY then MONDAY else WeekdayOf(d) + 1
  {
    assert d == 7 * (d / 7) + d % 7;
    if d % 7 == SUNDAY {
      assert d + 1 == 7 * (d / 7 + 1);
    } else {
      assert d + 1 == 7 * (d / 7) + (d % 7 + 1);
    }
  }

  /** Two days on the same weekday are a whole number of weeks apart. */
  lemma SameWeekdayApart(d: nat, e: nat)
    requires d < e && d % 7 == e % 7
    ensures d + DaysPerWeek <= e
  {
    assert d == 7 * (d / 7) + d % 7;
    assert e == 7 * (e / 7) + e % 7;
    assert d / 7 < e / 7;
  }

  /** `range(wd, n, 7)` holds each day of weekday `wd % 7` from `wd` on exactly once. */
  lemma {:induction false} WeekdayListCount(wd: nat, n: nat, d: nat)
    ensures Occurrences(WeekdayList(wd, n), d) == if wd <= d < n && d % 7 == wd % 7 then 1 else 0
    decreases n - wd
  {
    if wd < n {
      WeekdayListCount(wd + DaysPerWeek, n, d);
      OccurrencesConcat([wd], WeekdayList(wd + DaysPerWeek, n), d);
      assert (wd + DaysPerWeek) % 7 == wd % 7;
      if wd < d && d % 7 == wd % 7 {
        SameWeekdayApart(wd, d);
      }
    }
  }

  /** The lists of weekdays `lo .. hi-1`, concatenated in that order. */
  function ConcatWeekdays(lo: nat, hi: nat, n: nat): (r: seq<nat>)
    requires lo <= hi <= DaysPerWeek
    decreases hi - lo
  {
    if lo == hi then [] else ConcatWeekdays(lo, hi - 1, n) + WeekdayList(hi - 1, n)
  }

  lemma {:induction false} ConcatWeekdaysCount(lo: nat, hi: nat, n: nat, d: nat)
    requires lo <= hi <= DaysPerWeek
    ensures Occurrences(ConcatWeekdays(lo, hi, n), d) == if d < n && lo <= d % 7 < hi then 1 else 0
    decreases hi - lo
  {
    if lo < hi {
      var k := hi - 1;
      var front := ConcatWeekdays(lo, k, n);
      var back := WeekdayList(k, n);
      ConcatWeekdaysCount(lo, k, n, d);
      WeekdayListCount(k, n, d);
      OccurrencesConcat(front, back, d);
      WeekdayFacts(k, d);
      CountSplit(Occurrences(front, d), Occurrences(back, d), d < n, lo, k, d % 7, d);
    }
  }

  /** The count over the weekdays `lo .. k` is that over `lo .. k-1` plus that of weekday `k`. */
  lemma CountSplit(inFront: nat, inBack: nat, inHorizon: bool, lo: nat, k: nat, w: nat, d: nat)
    requires w <= d && lo <= k
    requires inFront == if inHorizon && lo <= w < k then 1 else 0
    requires inBack == if k <= d && inHorizon && w == k then 1 else 0
    ensures inFront + inBack == if inHorizon && lo <= w < k + 1 then 1 else 0
  {
  }

  /** `working_days` as `__init__` builds it: Mondays, then Tuesdays, ..., then Fridays. */
  function InitialWorkingDays(n: nat): seq<nat>
  {
    ConcatWeekdays(MONDAY, SATURDAY, n)
  }

  /** `weekends_and_holidays` as `__init__` builds it: Saturdays, then Sundays. */
  function InitialWeekends(n: nat): seq<nat>
  {
    ConcatWeekdays(SATURDAY, DaysPerWeek, n)
  }

  /** The two lists together hold every day of `[0, n)` exactly once and nothing else. */
  ghost predicate Partition(working: seq<nat>, weekends: seq<nat>, n: nat)
  {
    forall d: nat :: multiset(working)[d] + multiset(weekends)[d] == if d < n then 1 else 0
  }

  /** Every day of `[0, n)` is in exactly one of the lists, and no list holds another day. */
  lemma PartitionMembership(working: seq<nat>, weekends: seq<nat>, n: nat, d: nat)
    requires Partition(working, weekends, n)
    ensures d < n <==> (d in working || d in weekends)
    ensures !(d in working && d in weekends)
  {
    assert multiset(working)[d] + multiset(weekends)[d] == if d < n then 1 else 0;
  }

  lemma InitialCalendarAt(n: nat, d: nat)
    ensures multiset(InitialWorkingDays(n))[d] == if d < n && d % 7 < SATURDAY then 1 else 0
    ensures multiset(InitialWeekends(n))[d] == if d < n && d % 7 >= SATURDAY then 1 else 0
    ensures d in InitialWorkingDays(n) <==> d < n && d % 7 < SATURDAY
    ensures d in InitialWeekends(n) <==> d < n && d % 7 >= SATURDAY
  {
    ConcatWeekdaysCount(MONDAY, SATURDAY, n, d);
    ConcatWeekdaysCount(SATURDAY, DaysPerWeek, n, d);
    OccurrencesMultiplicity(InitialWorkingDays(n), d);
    OccurrencesMultiplicity(InitialWeekends(n), d);
    var w := d % 7;
    assert w < 7;
    assert d in InitialWorkingDays(n) <==> multiset(InitialWorkingDays(n))[d] > 0;
    assert d in InitialWeekends(n) <==> multiset(InitialWeekends(n))[d] > 0;
  }

  /** `__init__`'s two lists hold every day of the horizon exactly once. */
  lemma InitialPartition(n: nat)
    ensures Partition(InitialWorkingDays(n), InitialWeekends(n), n)
  {
    forall d: nat
      ensures multiset(InitialWorkingDays(n))[d] + multiset(InitialWeekends(n))[d] == if d < n then 1 else 0
    {
      InitialCalendarAt(n, d);
    }
  }

  /** The initial working days are exactly the days with `d % 7 < 5`, the rest are weekends. */
  lemma InitialSplitByWeekday(n: nat)
    ensures forall d: nat :: d in InitialWorkingDays(n) <==> d < n && d % 7 < SATURDAY
    ensures forall d: nat :: d in InitialWeekends(n) <==> d < n && d % 7 >= SATURDAY
  {
    forall d: nat
      ensures d in InitialWorkingDays(n) <==> d < n && d % 7 < SATURDAY
      ensures d in InitialWeekends(n) <==> d < n && d % 7 >= SATURDAY
    {
      InitialCalendarAt(n, d);
    }
  }

  /** The first weekday's list opens the concatenation. */
  lemma {:induction false} ConcatWeekdaysPrefix(lo: nat, hi: nat, n: nat)
    requires lo < hi <= DaysPerWeek
    ensures |WeekdayList(lo, n)| <= |ConcatWeekdays(lo, hi, n)|
    ensures ConcatWeekdays(lo, hi, n)[..|WeekdayList(lo, n)|] == WeekdayList(lo, n)
    decreases hi - lo
  {
    if hi - 1 > lo {
      ConcatWeekdaysPrefix(lo, hi - 1, n);
      var front := ConcatWeekdays(lo, hi - 1, n);
      assert ConcatWeekdays(lo, hi, n) == front + WeekdayList(hi - 1, n);
      assert (front + WeekdayList(hi - 1, n))[..|WeekdayList(lo, n)|] == front[..|WeekdayList(lo, n)|];
    } else {
      assert ConcatWeekdays(lo, hi, n) == ConcatWeekdays(lo, lo, n) + WeekdayList(lo, n);
    }
  }

  /** Beyond one week the initial working-day list opens with the Mondays 0 and 7. */
  lemma InitialWorkingDaysOpening(n: nat)
    requires n > DaysPerWeek
    ensures |InitialWorkingDays(n)| >= 2
    ensures InitialWorkingDays(n)[0] == 0 && InitialWorkingDays(n)[1] == 7
  {
    ConcatWeekdaysPrefix(MONDAY, SATURDAY, n);
    assert WeekdayList(0, n) == [0] + ([7] + WeekdayList(14, n));
  }

  /**
   * Beyond one week the initial working-day list is not in day order: the Tuesday 1 comes
   * after the Mondays 0 and 7.
   */
  lemma InitialWorkingDaysUnsorted(n: nat)
    requires n > DaysPerWeek
    ensures !Sorted(InitialWorkingDays(n))
  {
    var s := InitialWorkingDays(n);
    InitialWorkingDaysOpening(n);
    InitialCalendarAt(n, 1);
    assert 1 in s;
    var i := IndexOf(s, 1);
    assert 1 < i && s[1] > s[i];
  }

  /** `add_holiday(d)` on the two lists; `None` where `list.remove` raises `ValueError`. */
  function MoveHoliday(working: seq<nat>, weekends: seq<nat>, d: int): (r: Option<(seq<nat>, seq<nat>)>)
    ensures r.None? <==> d < 0 || d !in working
  {
    if d < 0 || d !in working then None
    else Some((Sort(RemoveFirst(working, d as nat).value), Sort(weekends + [d as nat])))
  }

  /** `for holiday in holidays: self.add_holiday(holiday)`, stopping at the first failure. */
  function MoveHolidays(working: seq<nat>, weekends: seq<nat>, hs: seq<int>): Option<(seq<nat>, seq<nat>)>
  {
    if |hs| == 0 then Some((working, weekends))
    else match MoveHolidays(working, weekends, hs[..|hs| - 1])
      case None => None
      case Some(p) => MoveHoliday(p.0, p.1, Last(hs))
  }

  /** Moving a working day `d` leaves the other days where they were. */
  lemma HolidayMembers(working: seq<nat>, weekends: seq<nat>, n: nat, d: nat, e: nat)
    requires Partition(working, weekends, n)
    requires d in working
    ensures e in Sort(RemoveFirst(working, d).value) <==> e in working && e != d
    ensures e in Sort(weekends + [d]) <==> e in weekends || e == d
  {
    var rest: seq<nat> := RemoveFirst(working, d).value;
    var w: seq<nat> := Sort(rest);
    var m: multiset<nat> := multiset(w);
    var mw: multiset<nat> := multiset(working);
    assert m == mw - multiset{d};
    assert mw[e] <= 1 by {
      assert mw[e] + multiset(weekends)[e] == if e < n then 1 else 0;
    }
    assert e in w <==> m[e] > 0;
    assert e in working <==> mw[e] > 0;
    var v: seq<nat> := Sort(weekends + [d]);
    var mv: multiset<nat> := multiset(v);
    var me: multiset<nat> := multiset(weekends);
    assert mv == me + multiset{d};
    assert e in v <==> mv[e] > 0;
    assert e in weekends <==> me[e] > 0;
  }

  /** Once a holiday fails, the later ones are not tried. */
  lemma {:induction false} MoveHolidaysFailStays(working: seq<nat>, weekends: seq<nat>, hs: seq<int>, j: nat)
    requires j <= |hs| && MoveHolidays(working, weekends, hs[..j]).None?
    ensures MoveHolidays(working, weekends, hs).None?
    decreases |hs|
  {
    if j < |hs| {
      var front := hs[..|hs| - 1];
      assert front[..j] == hs[..j];
      MoveHolidaysFailStays(working, weekends, front, j);
    } else {
      assert hs[..j] == hs;
    }
  }

  /** The holidays are distinct working days. */
  ghost predicate HolidaysValid(working: seq<nat>, hs: seq<int>)
  {
    && (forall i :: 0 <= i < |hs| ==> 0 <= hs[i] && hs[i] in working)
    && (forall i, j :: 0 <= i < j < |hs| ==> hs[i] != hs[j])
  }

  /** `r` is the partition with the holidays `hs` moved from the working days to the weekends. */
  ghost predicate Moved(working: seq<nat>, weekends: seq<nat>, n: nat, hs: seq<int>, r: (seq<nat>, seq<nat>))
  {
    && Partition(r.0, r.1, n)
    && (forall d: nat :: d in r.0 <==> d in working && d !in hs)
    && (forall d: nat :: d in r.1 <==> d in weekends || d in hs)
  }

  lemma HolidaysValidStep(working: seq<nat>, front: seq<int>, h: int)
    ensures HolidaysValid(working, front + [h]) <==>
      HolidaysValid(working, front) && 0 <= h && h in working && h !in front
  {
    var hs := front + [h];
    assert forall i :: 0 <= i < |front| ==> hs[i] == front[i];
    if HolidaysValid(working, hs) {
      assert hs[|front|] == h;
      assert HolidaysValid(working, front);
    }
    if HolidaysValid(working, front) && 0 <= h && h in working && h !in front {
      forall i | 0 <= i < |hs| ensures 0 <= hs[i] && hs[i] in working {
        if i == |front| {
          assert hs[i] == h;
        }
      }
      forall i, j | 0 <= i < j < |hs| ensures hs[i] != hs[j] {
        if j == |front| {
          assert hs[i] == front[i] && hs[j] == h;
        }
      }
    }
  }

  lemma MovedStep(working: seq<nat>, weekends: seq<nat>, n: nat, front: seq<int>, h: int, p: (seq<nat>, seq<nat>))
    requires Moved(working, weekends, n, front, p)
    requires 0 <= h && h in p.0
    ensures Moved(working, weekends, n, front + [h], MoveHoliday(p.0, p.1, h).value)
  {
    var d: nat := h;
    HolidayKeepsPartition(p.0, p.1, n, d);
    forall e: nat
      ensures e in Sort(RemoveFirst(p.0, d).value) <==> e in p.0 && e != d
      ensures e in Sort(p.1 + [d]) <==> e in p.1 || e == d
    {
      HolidayMembers(p.0, p.1, n, d, e);
    }
    assert forall e: int :: e in front + [h] <==> e in front || e == h;
  }

  /**
   * Starting from a partition, a list of holidays goes through exactly when its entries are
   * distinct working days; the days then move to the weekend-and-holiday list and the lists
   * stay a partition of the horizon.
   */
  lemma {:induction false} MoveHolidaysFacts(working: seq<nat>, weekends: seq<nat>, n: nat, hs: seq<int>)
    requires Partition(working, weekends, n)
    ensures MoveHolidays(working, weekends, hs).Some? <==> HolidaysValid(working, hs)
    ensures MoveHolidays(working, weekends, hs).Some? ==>
      Moved(working, weekends, n, hs, MoveHolidays(working, weekends, hs).value)
    decreases |hs|
  {
    if |hs| > 0 {
      var front, h := hs[..|hs| - 1], Last(hs);
      assert hs == front + [h];
      MoveHolidaysFacts(working, weekends, n, front);
      HolidaysValidStep(working, front, h);
      match MoveHolidays(working, weekends, front)
      case None =>
      case Some(p) =>
        assert 0 <= h ==> (h in p.0 <==> h in working && h !in front);
        if 0 <= h && h in p.0 {
          MovedStep(working, weekends, n, front, h, p);
        }
    } else {
      assert HolidaysValid(working, hs);
    }
  }

  /** Once a holiday was added, both lists are sorted. */
  lemma MoveHolidaysSorted(working: seq<nat>, weekends: seq<nat>, hs: seq<int>)
    requires |hs| > 0 && MoveHolidays(working, weekends, hs).Some?
    ensures Sorted(MoveHolidays(working, weekends, hs).value.0) && Sorted(MoveHolidays(working, weekends, hs).value.1)
  {
  }

  /** `[d for d in days if d % 7 == wd]`, order kept. */
  function OnWeekday(days: seq<nat>, wd: nat): (r: seq<nat>)
    ensures forall d: nat :: d in r <==> d in days && d % 7 == wd
    ensures |r| <= |days|
  {
    if |days| == 0 then []
    else
      var d := days[|days| - 1];
      OnWeekday(days[..|days| - 1], wd) + (if d % 7 == wd then [d] else [])
  }

  /**
   * `add_holiday(d)`: a working day becomes a holiday; the lists stay a partition of the
   * horizon and both come out sorted.
   */
  lemma HolidayKeepsPartition(working: seq<nat>, weekends: seq<nat>, n: nat, d: nat)
    requires Partition(working, weekends, n)
    requires d in working
    ensures Partition(Sort(RemoveFirst(working, d).value), Sort(weekends + [d]), n)
    ensures d !in Sort(RemoveFirst(working, d).value) && d in Sort(weekends + [d])
    ensures Sorted(Sort(RemoveFirst(working, d).value)) && Sorted(Sort(weekends + [d]))
  {
    var w: seq<nat> := Sort(RemoveFirst(working, d).value);
    var e: seq<nat> := Sort(weekends + [d]);
    assert multiset(weekends + [d]) == multiset(weekends) + multiset{d};
    MovePartition(working, weekends, w, e, n, d);
  }

  /** Moving one working day `d` to the other list keeps the partition. */
  lemma MovePartition(working: seq<nat>, weekends: seq<nat>, w: seq<nat>, e: seq<nat>, n: nat, d: nat)
    requires Partition(working, weekends, n) && d in working
    requires multiset(w) == multiset(working) - multiset{d} && multiset(e) == multiset(weekends) + multiset{d}
    ensures Partition(w, e, n) && d !in w && d in e
  {
    assert multiset(working)[d] == 1 by {
      assert multiset(working)[d] + multiset(weekends)[d] == if d < n then 1 else 0;
    }
    forall x: nat
      ensures multiset(w)[x] + multiset(e)[x] == if x < n then 1 else 0
    {
      assert multiset(working)[x] + multiset(weekends)[x] == if x < n then 1 else 0;
    }
    assert multiset(w)[d] == 0;
    assert d in multiset(e);
  }
}
