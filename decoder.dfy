/**
 * The counts `print_schedule` reads back from a solution: for every name in `schedules`,
 * the number of days its block works each shift, and the number of weekend and holiday
 * days on which it works the first shift. The lemmas say that in any assignment
 * satisfying a model built without error these counts sit inside the windows that
 * `set_shift_expectations` put around the resident's expectations.
 */
module Decoder {
  import opened Wrappers
  import opened Lists
  import opened CpModel
  import opened Calendar
  import opened Registry
  import opened Fairness
  import opened Bounds
  import opened Compiler

  /** One printed line: a total per shift, in the order of `shifts`, and the weekend count. */
  datatype Row = Row(totals: seq<nat>, weekend: nat)

  /**
   * `sum(BooleanValue(day[shift]) for day in schedule)` for each shift, and
   * `sum(BooleanValue(schedule[day][shifts[0]]) for day in weekends_and_holidays)`.
   */
  function DecodeRow(a: Assignment, b: nat, numDays: nat, shifts: seq<string>, weekends: seq<nat>): (r: Row)
    requires |shifts| > 0
    ensures |r.totals| == |shifts|
    ensures forall j :: 0 <= j < |shifts| ==> r.totals[j] <= numDays
    ensures r.weekend <= |weekends|
  {
    Row(seq(|shifts|, j requires 0 <= j < |shifts| => Worked(a, b, Days(numDays), shifts[j])), Worked(a, b, weekends, shifts[0]))
  }

  /**
   * The line decoded from block `b` has its last-shift total in the window around the
   * expected number of shifts of `res`, and its weekend count in the window around two
   * sevenths of that expectation.
   */
  ghost predicate RowFits(a: Assignment, c: Context, b: nat, res: Resident)
    requires |c.shifts| > 0
  {
    && ExpectedTotal(res, c.numDays, c.callRatio).Success?
    && var x := ExpectedTotal(res, c.numDays, c.callRatio).value;
       var row := DecodeRow(a, b, c.numDays, c.shifts, c.weekends);
       && Window(x).0 <= Last(row.totals) <= Window(x).1
       && Window(ExpectedWeekend(x)).0 <= row.weekend <= Window(ExpectedWeekend(x)).1
  }

  /**
   * A block whose build list sets the shift expectations and went through: in any
   * assignment satisfying its constraints, its last-shift total lies in the window around
   * the resident's expected number of shifts, and its weekend count in the window around
   * two sevenths of that expectation.
   */
  lemma BlockWithinExpectations(a: Assignment, c: Context, b: nat, res: Resident, rules: seq<Rule>, index: nat)
    requires |c.shifts| > 0
    requires RulesEmission(c, b, res, rules).status == Pass
    requires AllHold(a, RulesEmission(c, b, res, rules).cs)
    requires index < |rules| && rules[index] == ShiftExpectations
    ensures RowFits(a, c, b, res)
  {
    RulesEmissionParts(a, c, b, res, rules, index);
    ExpectationsFit(a, c, b, res);
  }

  /** The constraints of `set_shift_expectations` alone, once they went through, keep the line in its windows. */
  lemma ExpectationsFit(a: Assignment, c: Context, b: nat, res: Resident)
    requires |c.shifts| > 0
    requires SetExpectations(b, res, c.numDays, c.callRatio, c.shifts, c.weekends).status == Pass
    requires AllHold(a, SetExpectations(b, res, c.numDays, c.callRatio, c.shifts, c.weekends).cs)
    ensures RowFits(a, c, b, res)
  {
    SetExpectationsHolds(a, b, res, c.numDays, c.callRatio, c.shifts, c.weekends);
    ShiftColumnCounts(a, b, Days(c.numDays), Last(c.shifts));
    ShiftColumnCounts(a, b, c.weekends, c.shifts[0]);
    var row := DecodeRow(a, b, c.numDays, c.shifts, c.weekends);
    assert Last(row.totals) == Worked(a, b, Days(c.numDays), Last(c.shifts));
    assert row.weekend == Worked(a, b, c.weekends, c.shifts[0]);
  }

  /** The line printed for the resident modelled in block `first + k` obeys its windows. */
  lemma RowWithinExpectations(a: Assignment, c: Context, nofill: seq<int>, schedules: map<string, nat>, first: nat, k: nat)
    requires |c.shifts| > 0
    requires SetupEmission(c, nofill, schedules, first).status == Pass
    requires AllHold(a, SetupEmission(c, nofill, schedules, first).cs)
    requires k < |c.residents|
    ensures RowFits(a, c, first + k, c.residents[k])
  {
    var rules := BuildRules(c.classification).value;
    SetupParts(a, c, nofill, schedules, first);
    ResidentsEmissionParts(a, c, rules, c.residents, first, k);
    ResidentEmissionParts(a, c, first + k, c.residents[k], rules);
    BlockWithinExpectations(a, c, first + k, c.residents[k], rules, if c.classification == "junior" then 7 else 4);
  }

  /**
   * `print_schedule` goes through `schedules` by name. The block a resident's name maps to
   * belongs to the last resident with that name, and the line printed for it obeys that
   * resident's windows; with unique names that resident is the one named.
   */
  lemma PrintedRowWithinExpectations(a: Assignment, c: Context, nofill: seq<int>, schedules: map<string, nat>, first: nat, k: nat)
    requires |c.shifts| > 0
    requires SetupEmission(c, nofill, schedules, first).status == Pass
    requires AllHold(a, SetupEmission(c, nofill, schedules, first).cs)
    requires k < |c.residents|
    ensures var j := BlocksOf(schedules, c.residents, first)[c.residents[k].name] - first;
      && k <= j < |c.residents| && BlocksOf(schedules, c.residents, first)[c.residents[k].name] == first + j
      && c.residents[j].name == c.residents[k].name
    ensures forall j :: 0 <= j < |c.residents| && BlocksOf(schedules, c.residents, first)[c.residents[k].name] == first + j ==>
      RowFits(a, c, first + j, c.residents[j])
  {
    BlockOfName(schedules, c.residents, first, k);
    forall j | 0 <= j < |c.residents| && BlocksOf(schedules, c.residents, first)[c.residents[k].name] == first + j
      ensures RowFits(a, c, first + j, c.residents[j])
    {
      RowWithinExpectations(a, c, nofill, schedules, first, j);
    }
  }
}
