/**
 * `setup_model` as a whole: the build functions each classification applies to every
 * resident, the trauma balance added for junior trauma residents, and the coverage
 * constraints over all residents. `SetupEmission` is the list of constraints and
 * penalties the model ends up with, and the guarantee lemmas say what any assignment
 * satisfying all of them looks like.
 */
module Compiler {
  import opened Wrappers
  import opened Lists
  import opened CpModel
  import opened Calendar
  import opened Registry
  import opened Fairness
  import opened FixedValues
  import opened Adjacency
  import opened Penalties
  import opened Bounds

  /** The build functions `setup_model` hands to `add_resident_model`. */
  datatype Rule =
    | EmergencyWednesday
    | CantBookVacation
    | TraumaDayCall
    | PostCall(ignore: Option<nat>)
    | PreferFullDay
    | MultipleFridays
    | DisperseCall
    | ShiftExpectations
    | FridaySunday
    | FridaySaturday
    | ClaimedDays

  const JuniorRules: seq<Rule> :=
    [ EmergencyWednesday, CantBookVacation, TraumaDayCall, PostCall(None), PreferFullDay,
      MultipleFridays, DisperseCall, ShiftExpectations, FridaySunday, ClaimedDays ]

  /** Seniors keep Friday and Saturday together: post-call is not applied after a Friday. */
  const SeniorRules: seq<Rule> :=
    [ CantBookVacation, PostCall(Some(FRIDAY)), MultipleFridays, DisperseCall,
      ShiftExpectations, FridaySaturday, ClaimedDays ]

  /** The classification picks the build list; any other value leaves it unbound. */
  function BuildRules(classification: string): (r: Option<seq<Rule>>)
    ensures r.Some? <==> classification == "junior" || classification == "senior"
  {
    if classification == "junior" then Some(JuniorRules)
    else if classification == "senior" then Some(SeniorRules)
    else None
  }

  /** What the rules read from the solver. */
  datatype Context = Context(
    numDays: nat,
    shifts: seq<string>,
    maxShiftsPerWeek: int,
    extraFridayPenalty: int,
    classification: string,
    working: seq<nat>,
    weekends: seq<nat>,
    residents: seq<Resident>,
    callRatio: Option<real>)

  /** One build function applied to the resident owning block `b`. */
  function RuleEmission(c: Context, b: nat, res: Resident, rule: Rule): Emission
    requires |c.shifts| > 0
  {
    match rule
    case EmergencyWednesday => Done(WednesdayRule(b, res, c.working, c.shifts))
    case CantBookVacation => Done(VacationRule(b, c.numDays, res.vacation, c.shifts))
    case TraumaDayCall => Done(TraumaDayRule(b, res, c.working, c.shifts))
    case PostCall(ignore) => Done(PostCallRule(b, c.numDays, c.shifts, ignore))
    case PreferFullDay => FullDayUpTo(b, c.numDays, c.shifts)
    case MultipleFridays => FridaysRule(b, c.numDays, c.shifts, c.extraFridayPenalty)
    case DisperseCall => DisperseRule(b, c.numDays, c.shifts, c.maxShiftsPerWeek)
    case ShiftExpectations => SetExpectations(b, res, c.numDays, c.callRatio, c.shifts, c.weekends)
    case FridaySunday => FridayImpliesSunday(b, c.numDays, c.shifts)
    case FridaySaturday => FridayImpliesSaturday(b, c.numDays, c.shifts)
    case ClaimedDays => ClaimsRule(b, c.numDays, c.shifts, res.claimed)
  }

  /** `for func in build_functions: func(resident)`, stopping at the first exception. */
  function RulesEmission(c: Context, b: nat, res: Resident, rules: seq<Rule>): Emission
    requires |c.shifts| > 0
  {
    if |rules| == 0 then Done([])
    else Then(RulesEmission(c, b, res, rules[..|rules| - 1]), RuleEmission(c, b, res, Last(rules)))
  }

  /** Whether `add_resident_model` balances the resident's trauma day-call. */
  predicate BalancesTrauma(c: Context, res: Resident)
  {
    res.onTrauma && c.classification == "junior"
  }

  /** `add_resident_model` after its block `b` is allocated. */
  function ResidentEmission(c: Context, b: nat, res: Resident, rules: seq<Rule>): Emission
    requires |c.shifts| > 0
  {
    var built := RulesEmission(c, b, res, rules);
    if BalancesTrauma(c, res) then Then(built, TraumaBalance(b, c.residents, res, c.working, c.numDays, c.shifts))
    else built
  }

  /** Once a build function raises, the later ones are not applied. */
  lemma {:induction false} RulesEmissionFailStays(c: Context, b: nat, res: Resident, rules: seq<Rule>, j: nat)
    requires |c.shifts| > 0
    requires j <= |rules| && RulesEmission(c, b, res, rules[..j]).status.Fail?
    ensures RulesEmission(c, b, res, rules) == RulesEmission(c, b, res, rules[..j])
    decreases |rules|
  {
    if j < |rules| {
      var front := rules[..|rules| - 1];
      assert front[..j] == rules[..j];
      RulesEmissionFailStays(c, b, res, front, j);
    } else {
      assert rules[..j] == rules;
    }
  }

  /** The emissions `es` run one after the other, stopping at the first that raises. */
  function Chain(es: seq<Emission>): Emission
  {
    if |es| == 0 then Done([]) else Then(Chain(es[..|es| - 1]), Last(es))
  }

  /** One more emission: it follows those before it. */
  lemma ChainStep(es: seq<Emission>, i: nat)
    requires i < |es|
    ensures Chain(es[..i + 1]) == Then(Chain(es[..i]), es[i])
  {
    assert es[..i + 1][..i] == es[..i];
  }

  /** Once an emission raises, the later ones are not run. */
  lemma {:induction false} ChainFailStays(es: seq<Emission>, j: nat)
    requires j <= |es| && Chain(es[..j]).status.Fail?
    ensures Chain(es) == Chain(es[..j])
    decreases |es|
  {
    if j < |es| {
      var front := es[..|es| - 1];
      assert front[..j] == es[..j];
      ChainFailStays(front, j);
    } else {
      assert es[..j] == es;
    }
  }

  /** A chain that goes through is the concatenation of its emissions, each going through. */
  lemma {:induction false} ChainParts(a: Assignment, es: seq<Emission>, k: nat)
    requires Chain(es).status == Pass && k < |es|
    ensures es[k].status == Pass
    ensures AllHold(a, Chain(es).cs) ==> AllHold(a, es[k].cs)
    decreases |es|
  {
    var front := es[..|es| - 1];
    var e1 := Chain(front);
    assert e1.status == Pass;
    AllHoldConcat(a, e1.cs, Last(es).cs);
    if k < |es| - 1 {
      assert es[k] == front[k];
      ChainParts(a, front, k);
    }
  }

  /** The model of each of `rs`, `rs[i]` in block `first + i`. */
  function ResidentEmissions(c: Context, rules: seq<Rule>, rs: seq<Resident>, first: nat): seq<Emission>
    requires |c.shifts| > 0
  {
    seq(|rs|, k requires 0 <= k < |rs| => ResidentEmission(c, first + k, rs[k], rules))
  }

  /** The residents `rs` modelled in order, `rs[i]` in block `first + i`. */
  function ResidentsEmission(c: Context, rules: seq<Rule>, rs: seq<Resident>, first: nat): Emission
    requires |c.shifts| > 0
  {
    Chain(ResidentEmissions(c, rules, rs, first))
  }

  /** `schedules` after each of `rs` got its block: a repeated name keeps its last block. */
  function BlocksOf(schedules: map<string, nat>, rs: seq<Resident>, first: nat): (m: map<string, nat>)
    ensures forall i :: 0 <= i < |rs| ==> rs[i].name in m
  {
    if |rs| == 0 then schedules
    else
      var front := BlocksOf(schedules, rs[..|rs| - 1], first);
      assert forall i :: 0 <= i < |rs| - 1 ==> rs[i] == rs[..|rs| - 1][i];
      front[Last(rs).name := first + |rs| - 1]
  }

  /**
   * The residents loop raised at `rs[i]`: every resident before it passed, and since a name
   * is bound to its block before its build functions run, `schedules` holds the blocks of
   * `rs[..i + 1]`.
   */
  ghost predicate RaisedAt(c: Context, rules: seq<Rule>, rs: seq<Resident>, before: map<string, nat>, first: nat,
                           i: nat, schedules: map<string, nat>, numBlocks: nat)
    requires |c.shifts| > 0
  {
    && i < |rs|
    && ResidentsEmission(c, rules, rs[..i], first).status == Pass
    && ResidentEmission(c, first + i, rs[i], rules).status.Fail?
    && schedules == BlocksOf(before, rs[..i + 1], first)
    && numBlocks == first + i + 1
  }

  /** One more resident: its name gets the next block. */
  lemma BlocksOfStep(schedules: map<string, nat>, rs: seq<Resident>, first: nat, i: nat)
    requires i < |rs|
    ensures BlocksOf(schedules, rs[..i + 1], first) == BlocksOf(schedules, rs[..i], first)[rs[i].name := first + i]
  {
    assert rs[..i + 1][..i] == rs[..i];
  }

  /** `after` is `before` with the next resident's name given its block. */
  lemma BlocksOfNext(schedules: map<string, nat>, rs: seq<Resident>, first: nat, i: nat, before: map<string, nat>, after: map<string, nat>)
    requires i < |rs| && before == BlocksOf(schedules, rs[..i], first) && after == before[rs[i].name := first + i]
    ensures after == BlocksOf(schedules, rs[..i + 1], first)
  {
    BlocksOfStep(schedules, rs, first, i);
  }

  /** The names in the map are the old ones and those of `rs`. */
  lemma {:induction false} BlocksOfDomain(schedules: map<string, nat>, rs: seq<Resident>, first: nat)
    ensures forall name :: name in BlocksOf(schedules, rs, first) <==>
      name in schedules || exists i :: 0 <= i < |rs| && rs[i].name == name
    decreases |rs|
  {
    if |rs| > 0 {
      var front := rs[..|rs| - 1];
      BlocksOfDomain(schedules, front, first);
      var m := BlocksOf(schedules, rs, first);
      forall name | name in schedules || exists i :: 0 <= i < |rs| && rs[i].name == name
        ensures name in m
      {
        if name != Last(rs).name && name !in schedules {
          var i :| 0 <= i < |rs| && rs[i].name == name;
          assert i < |front| && front[i].name == name;
        }
      }
      forall name | name in m ensures name in schedules || exists i :: 0 <= i < |rs| && rs[i].name == name {
        if name != Last(rs).name && name !in schedules {
          var i :| 0 <= i < |front| && front[i].name == name;
          assert rs[i] == front[i];
        }
      }
    }
  }

  /** A resident's name maps to the block of the last resident of `rs` with that name. */
  lemma {:induction false} BlocksOfLast(schedules: map<string, nat>, rs: seq<Resident>, first: nat, i: nat)
    requires i < |rs|
    ensures first <= BlocksOf(schedules, rs, first)[rs[i].name] < first + |rs|
    ensures rs[BlocksOf(schedules, rs, first)[rs[i].name] - first].name == rs[i].name
    ensures forall l :: BlocksOf(schedules, rs, first)[rs[i].name] - first < l < |rs| ==> rs[l].name != rs[i].name
    decreases |rs|
  {
    var front := rs[..|rs| - 1];
    if rs[i].name != Last(rs).name {
      assert i < |front| && rs[i] == front[i];
      BlocksOfLast(schedules, front, first, i);
      assert forall l :: 0 <= l < |front| ==> rs[l] == front[l];
    }
  }

  /** With unique names, each resident's name maps to its own block. */
  lemma BlocksOfUnique(schedules: map<string, nat>, rs: seq<Resident>, first: nat, k: nat)
    requires k < |rs| && forall l :: 0 <= l < |rs| && l != k ==> rs[l].name != rs[k].name
    ensures BlocksOf(schedules, rs, first)[rs[k].name] == first + k
  {
    BlocksOfLast(schedules, rs, first, k);
  }

  /** The block a name maps to belongs to a resident of that name, at or after any other holding it. */
  lemma BlockOfName(schedules: map<string, nat>, rs: seq<Resident>, first: nat, k: nat)
    requires k < |rs|
    ensures var j := BlocksOf(schedules, rs, first)[rs[k].name] - first;
      && k <= j < |rs| && BlocksOf(schedules, rs, first)[rs[k].name] == first + j
      && rs[j].name == rs[k].name
  {
    BlocksOfLast(schedules, rs, first, k);
  }

  /** `[schedules[r['name']][day][shift] for r in residents_info]`. */
  function OnShift(schedules: map<string, nat>, rs: seq<Resident>, day: nat, shift: string): (ls: seq<Lit>)
    requires forall i :: 0 <= i < |rs| ==> rs[i].name in schedules
    ensures |ls| == |rs| && forall i :: 0 <= i < |rs| ==> ls[i] == Pos(X(schedules[rs[i].name], day, shift))
  {
    seq(|rs|, i requires 0 <= i < |rs| => Pos(X(schedules[rs[i].name], day, shift)))
  }

  /** `for shift in shifts: AddExactlyOne(...)` on one day. */
  function CoverDay(schedules: map<string, nat>, rs: seq<Resident>, day: nat, shifts: seq<string>): seq<Constraint>
    requires forall i :: 0 <= i < |rs| ==> rs[i].name in schedules
  {
    if |shifts| == 0 then []
    else CoverDay(schedules, rs, day, shifts[..|shifts| - 1]) + [ExactlyOne(OnShift(schedules, rs, day, Last(shifts)))]
  }

  /** "There must be a resident on shift": every day of `days` outside `nofill`. */
  function Coverage(schedules: map<string, nat>, rs: seq<Resident>, days: seq<nat>, nofill: seq<int>, shifts: seq<string>): seq<Constraint>
    requires forall i :: 0 <= i < |rs| ==> rs[i].name in schedules
  {
    if |days| == 0 then []
    else
      Coverage(schedules, rs, days[..|days| - 1], nofill, shifts) +
        (if Last(days) in nofill then [] else CoverDay(schedules, rs, Last(days), shifts))
  }

  /** Exactly one resident of `rs`, looked up by name, works `shift` on `day`. */
  predicate ExactlyOneOnShift(a: Assignment, schedules: map<string, nat>, rs: seq<Resident>, day: nat, shift: string)
    requires forall i :: 0 <= i < |rs| ==> rs[i].name in schedules
  {
    exists i ::
      && 0 <= i < |rs|
      && a.x(schedules[rs[i].name], day, shift)
      && forall j :: 0 <= j < |rs| && j != i ==> !a.x(schedules[rs[j].name], day, shift)
  }

  lemma OnShiftExactlyOne(a: Assignment, schedules: map<string, nat>, rs: seq<Resident>, day: nat, shift: string)
    requires forall i :: 0 <= i < |rs| ==> rs[i].name in schedules
    ensures Holds(a, ExactlyOne(OnShift(schedules, rs, day, shift))) <==> ExactlyOneOnShift(a, schedules, rs, day, shift)
  {
    var ls := OnShift(schedules, rs, day, shift);
    CountTrueIsOne(a, ls);
    assert forall i :: 0 <= i < |rs| ==> (LitHolds(a, ls[i]) <==> a.x(schedules[rs[i].name], day, shift));
  }

  lemma {:induction false} CoverDayHolds(a: Assignment, schedules: map<string, nat>, rs: seq<Resident>, day: nat, shifts: seq<string>)
    requires forall i :: 0 <= i < |rs| ==> rs[i].name in schedules
    ensures AllHold(a, CoverDay(schedules, rs, day, shifts)) <==>
      forall s :: s in shifts ==> ExactlyOneOnShift(a, schedules, rs, day, s)
    decreases |shifts|
  {
    if |shifts| > 0 {
      var front, s := shifts[..|shifts| - 1], Last(shifts);
      assert shifts == front + [s];
      CoverDayHolds(a, schedules, rs, day, front);
      AllHoldConcat(a, CoverDay(schedules, rs, day, front), [ExactlyOne(OnShift(schedules, rs, day, s))]);
      AllHoldOne(a, ExactlyOne(OnShift(schedules, rs, day, s)));
      OnShiftExactlyOne(a, schedules, rs, day, s);
    }
  }

  /** The coverage constraints hold exactly when every shift of every fillable day has exactly one resident. */
  lemma {:induction false} CoverageHolds(a: Assignment, schedules: map<string, nat>, rs: seq<Resident>, days: seq<nat>, nofill: seq<int>, shifts: seq<string>)
    requires forall i :: 0 <= i < |rs| ==> rs[i].name in schedules
    ensures AllHold(a, Coverage(schedules, rs, days, nofill, shifts)) <==>
      forall d: nat, s :: d in days && d !in nofill && s in shifts ==> ExactlyOneOnShift(a, schedules, rs, d, s)
    decreases |days|
  {
    if |days| > 0 {
      var front, d := days[..|days| - 1], Last(days);
      assert days == front + [d];
      CoverageHolds(a, schedules, rs, front, nofill, shifts);
      var tail := if d in nofill then [] else CoverDay(schedules, rs, d, shifts);
      AllHoldConcat(a, Coverage(schedules, rs, front, nofill, shifts), tail);
      CoverDayHolds(a, schedules, rs, d, shifts);
    }
  }

  /**
   * `setup_model`: no resident registered means `residents_info` does not exist; an unknown
   * classification leaves the build list unbound once the first resident is modelled.
   * The blocks of the residents start at `first`; `schedules` is the map before the call.
   */
  function SetupEmission(c: Context, nofill: seq<int>, schedules: map<string, nat>, first: nat): Emission
    requires |c.shifts| > 0
  {
    if |c.residents| == 0 then Emission([], [], Fail(AttributeError))
    else match BuildRules(c.classification)
      case None => Emission([], [], Fail(UnboundLocalError))
      case Some(rules) =>
        var blocks := BlocksOf(schedules, c.residents, first);
        Then(ResidentsEmission(c, rules, c.residents, first),
          Done(Coverage(blocks, c.residents, Days(c.numDays), nofill, c.shifts)))
  }

  // ---------------------------------------------------------------- decomposition

  /** A build list that goes through is the concatenation of its rules, each going through. */
  lemma {:induction false} RulesEmissionParts(a: Assignment, c: Context, b: nat, res: Resident, rules: seq<Rule>, k: nat)
    requires |c.shifts| > 0
    requires RulesEmission(c, b, res, rules).status == Pass
    requires k < |rules|
    ensures RuleEmission(c, b, res, rules[k]).status == Pass
    ensures AllHold(a, RulesEmission(c, b, res, rules).cs) ==> AllHold(a, RuleEmission(c, b, res, rules[k]).cs)
    decreases |rules|
  {
    var front := rules[..|rules| - 1];
    var e1 := RulesEmission(c, b, res, front);
    var e2 := RuleEmission(c, b, res, Last(rules));
    assert e1.status == Pass;
    AllHoldConcat(a, e1.cs, e2.cs);
    if k < |rules| - 1 {
      assert rules[k] == front[k];
      RulesEmissionParts(a, c, b, res, front, k);
    }
  }

  /** A modelled resident list that goes through is the concatenation of its residents. */
  lemma ResidentsEmissionParts(a: Assignment, c: Context, rules: seq<Rule>, rs: seq<Resident>, first: nat, k: nat)
    requires |c.shifts| > 0
    requires ResidentsEmission(c, rules, rs, first).status == Pass
    requires k < |rs|
    ensures ResidentEmission(c, first + k, rs[k], rules).status == Pass
    ensures AllHold(a, ResidentsEmission(c, rules, rs, first).cs) ==> AllHold(a, ResidentEmission(c, first + k, rs[k], rules).cs)
  {
    ChainParts(a, ResidentEmissions(c, rules, rs, first), k);
  }

  lemma ResidentEmissionParts(a: Assignment, c: Context, b: nat, res: Resident, rules: seq<Rule>)
    requires |c.shifts| > 0
    requires ResidentEmission(c, b, res, rules).status == Pass
    ensures RulesEmission(c, b, res, rules).status == Pass
    ensures AllHold(a, ResidentEmission(c, b, res, rules).cs) ==> AllHold(a, RulesEmission(c, b, res, rules).cs)
    ensures BalancesTrauma(c, res) ==> TraumaBalance(b, c.residents, res, c.working, c.numDays, c.shifts).status == Pass
    ensures BalancesTrauma(c, res) && AllHold(a, ResidentEmission(c, b, res, rules).cs) ==>
      AllHold(a, TraumaBalance(b, c.residents, res, c.working, c.numDays, c.shifts).cs)
  {
    var built := RulesEmission(c, b, res, rules);
    if BalancesTrauma(c, res) {
      AllHoldConcat(a, built.cs, TraumaBalance(b, c.residents, res, c.working, c.numDays, c.shifts).cs);
    }
  }

  /** When `setup_model` goes through, every resident was modelled and the coverage is in place. */
  lemma SetupParts(a: Assignment, c: Context, nofill: seq<int>, schedules: map<string, nat>, first: nat)
    requires |c.shifts| > 0
    requires SetupEmission(c, nofill, schedules, first).status == Pass
    ensures |c.residents| > 0 && BuildRules(c.classification).Some?
    ensures ResidentsEmission(c, BuildRules(c.classification).value, c.residents, first).status == Pass
    ensures AllHold(a, SetupEmission(c, nofill, schedules, first).cs) ==>
      AllHold(a, ResidentsEmission(c, BuildRules(c.classification).value, c.residents, first).cs)
    ensures AllHold(a, SetupEmission(c, nofill, schedules, first).cs) ==>
      AllHold(a, Coverage(BlocksOf(schedules, c.residents, first), c.residents, Days(c.numDays), nofill, c.shifts))
  {
    var rules := BuildRules(c.classification).value;
    AllHoldConcat(a, ResidentsEmission(c, rules, c.residents, first).cs,
      Coverage(BlocksOf(schedules, c.residents, first), c.residents, Days(c.numDays), nofill, c.shifts));
  }

  // ---------------------------------------------------------------- guarantees

  /** `setup_model` raises exactly when there is no resident or the classification is unknown, if not later. */
  lemma SetupErrors(c: Context, nofill: seq<int>, schedules: map<string, nat>, first: nat)
    requires |c.shifts| > 0
    ensures |c.residents| == 0 ==> SetupEmission(c, nofill, schedules, first) == Emission([], [], Fail(AttributeError))
    ensures |c.residents| > 0 && c.classification != "junior" && c.classification != "senior" ==>
      SetupEmission(c, nofill, schedules, first) == Emission([], [], Fail(UnboundLocalError))
    ensures SetupEmission(c, nofill, schedules, first).status == Pass ==>
      |c.residents| > 0 && (c.classification == "junior" || c.classification == "senior")
  {
  }

  /**
   * Any assignment satisfying a model built without error puts exactly one resident on
   * every shift of every day outside `nofill`, looking each resident up by name.
   */
  lemma CoverageGuarantee(a: Assignment, c: Context, nofill: seq<int>, schedules: map<string, nat>, first: nat)
    requires |c.shifts| > 0
    requires SetupEmission(c, nofill, schedules, first).status == Pass
    requires AllHold(a, SetupEmission(c, nofill, schedules, first).cs)
    ensures var blocks := BlocksOf(schedules, c.residents, first);
      forall d: nat, s :: d < c.numDays && d !in nofill && s in c.shifts ==>
        ExactlyOneOnShift(a, blocks, c.residents, d, s)
  {
    SetupParts(a, c, nofill, schedules, first);
    var blocks := BlocksOf(schedules, c.residents, first);
    CoverageHolds(a, blocks, c.residents, Days(c.numDays), nofill, c.shifts);
    forall d: nat | d < c.numDays ensures d in Days(c.numDays) {
      assert Days(c.numDays)[d] == d;
    }
  }

  /** An emergency resident works nothing on a working Wednesday. */
  ghost predicate WednesdaysOff(a: Assignment, c: Context, b: nat, res: Resident)
  {
    res.onEmergency ==> forall d, s :: d in c.working && d % 7 == WEDNESDAY && s in c.shifts ==> !a.x(b, d, s)
  }

  /** Nothing is worked on a vacation day of the horizon. */
  ghost predicate VacationOff(a: Assignment, c: Context, b: nat, res: Resident)
  {
    forall d: nat, s :: d < c.numDays && d in res.vacation && s in c.shifts ==> !a.x(b, d, s)
  }

  /** A resident off trauma works no first shift on a working day. */
  ghost predicate DayCallOff(a: Assignment, c: Context, b: nat, res: Resident)
    requires |c.shifts| > 0
  {
    !res.onTrauma ==> forall d :: d in c.working ==> !a.x(b, d, c.shifts[0])
  }

  /** No shift the day after a last shift, except after a day of weekday `ignore`. */
  ghost predicate PostCallRespected(a: Assignment, c: Context, b: nat, ignore: Option<nat>)
    requires |c.shifts| > 0
  {
    forall d: nat, s :: d + 1 < c.numDays && ignore != Some(WeekdayOf(d)) && s in c.shifts ==>
      !(a.x(b, d, Last(c.shifts)) && a.x(b, d + 1, s))
  }

  /** A Friday last shift comes with every shift `gap` days later. */
  ghost predicate FridayFollowed(a: Assignment, c: Context, b: nat, gap: nat)
    requires |c.shifts| > 0
  {
    forall d: nat, s :: d < c.numDays && WeekdayOf(d) == FRIDAY && s in c.shifts ==>
      (a.x(b, d, Last(c.shifts)) ==> a.x(b, d + gap, s))
  }

  /** Every claim names a cell of the horizon, and that cell is worked. */
  ghost predicate ClaimsWorked(a: Assignment, c: Context, b: nat, res: Resident)
  {
    forall i :: 0 <= i < |res.claimed| ==>
      ListIndex(c.numDays, res.claimed[i].0).Some? && a.x(b, ListIndex(c.numDays, res.claimed[i].0).value, res.claimed[i].1)
  }

  /**
   * The night total over the horizon and the weekend first shifts lie inside the windows
   * around the resident's expectations.
   */
  ghost predicate ExpectationsMet(a: Assignment, c: Context, b: nat, res: Resident)
    requires |c.shifts| > 0
  {
    && ExpectedTotal(res, c.numDays, c.callRatio).Success?
    && var x := ExpectedTotal(res, c.numDays, c.callRatio).value;
       && BoundMet(a, b, TotalShifts, ShiftColumn(b, Days(c.numDays), Last(c.shifts)), Window(x).0, Window(x).1, c.numDays)
       && BoundMet(a, b, WeekendShift, ShiftColumn(b, c.weekends, c.shifts[0]),
                   Window(ExpectedWeekend(x)).0, Window(ExpectedWeekend(x)).1, c.numDays)
  }

  /** The hard rules of the junior list, for the block `b` of `res`. */
  ghost predicate JuniorBlockRules(a: Assignment, c: Context, b: nat, res: Resident)
    requires |c.shifts| > 0
  {
    && WednesdaysOff(a, c, b, res)
    && VacationOff(a, c, b, res)
    && DayCallOff(a, c, b, res)
    && PostCallRespected(a, c, b, None)
    && FridayFollowed(a, c, b, 2)
    && ExpectationsMet(a, c, b, res)
    && ClaimsWorked(a, c, b, res)
  }

  /** The hard rules of the senior list, for the block `b` of `res`. */
  ghost predicate SeniorBlockRules(a: Assignment, c: Context, b: nat, res: Resident)
    requires |c.shifts| > 0
  {
    && VacationOff(a, c, b, res)
    && PostCallRespected(a, c, b, Some(FRIDAY))
    && FridayFollowed(a, c, b, 1)
    && ExpectationsMet(a, c, b, res)
    && ClaimsWorked(a, c, b, res)
  }

  lemma ClaimsGuarantee(a: Assignment, c: Context, b: nat, res: Resident, rules: seq<Rule>, k: nat)
    requires |c.shifts| > 0
    requires RulesEmission(c, b, res, rules).status == Pass
    requires AllHold(a, RulesEmission(c, b, res, rules).cs)
    requires k < |rules| && rules[k] == ClaimedDays
    ensures ClaimsWorked(a, c, b, res)
  {
    RulesEmissionParts(a, c, b, res, rules, k);
    ClaimsStatus(b, c.numDays, c.shifts, res.claimed);
    ClaimsHold(a, b, c.numDays, c.shifts, res.claimed);
  }

  lemma ExpectationsGuarantee(a: Assignment, c: Context, b: nat, res: Resident, rules: seq<Rule>, k: nat)
    requires |c.shifts| > 0
    requires RulesEmission(c, b, res, rules).status == Pass
    requires AllHold(a, RulesEmission(c, b, res, rules).cs)
    requires k < |rules| && rules[k] == ShiftExpectations
    ensures ExpectationsMet(a, c, b, res)
  {
    RulesEmissionParts(a, c, b, res, rules, k);
    SetExpectationsHolds(a, b, res, c.numDays, c.callRatio, c.shifts, c.weekends);
  }

  lemma VacationGuarantee(a: Assignment, c: Context, b: nat, res: Resident, rules: seq<Rule>, k: nat)
    requires |c.shifts| > 0
    requires RulesEmission(c, b, res, rules).status == Pass
    requires AllHold(a, RulesEmission(c, b, res, rules).cs)
    requires k < |rules| && rules[k] == CantBookVacation
    ensures VacationOff(a, c, b, res)
  {
    RulesEmissionParts(a, c, b, res, rules, k);
    VacationHolds(a, b, c.numDays, res.vacation, c.shifts);
  }

  lemma PostCallGuarantee(a: Assignment, c: Context, b: nat, res: Resident, rules: seq<Rule>, k: nat, ignore: Option<nat>)
    requires |c.shifts| > 0
    requires RulesEmission(c, b, res, rules).status == Pass
    requires AllHold(a, RulesEmission(c, b, res, rules).cs)
    requires k < |rules| && rules[k] == PostCall(ignore)
    ensures PostCallRespected(a, c, b, ignore)
  {
    RulesEmissionParts(a, c, b, res, rules, k);
    PostCallHolds(a, b, c.numDays, c.shifts, ignore);
  }

  lemma FridayGuarantee(a: Assignment, c: Context, b: nat, res: Resident, rules: seq<Rule>, k: nat, gap: nat)
    requires |c.shifts| > 0
    requires RulesEmission(c, b, res, rules).status == Pass
    requires AllHold(a, RulesEmission(c, b, res, rules).cs)
    requires k < |rules| && rules[k] == (if gap == 2 then FridaySunday else FridaySaturday) && (gap == 1 || gap == 2)
    ensures FridayFollowed(a, c, b, gap)
  {
    RulesEmissionParts(a, c, b, res, rules, k);
    ImplicationHolds(a, b, c.numDays, c.shifts, FRIDAY, gap);
  }

  /** A junior resident modelled without error satisfies every hard rule of the junior list. */
  lemma JuniorResidentGuarantee(a: Assignment, c: Context, b: nat, res: Resident)
    requires |c.shifts| > 0
    requires RulesEmission(c, b, res, JuniorRules).status == Pass
    requires AllHold(a, RulesEmission(c, b, res, JuniorRules).cs)
    ensures JuniorBlockRules(a, c, b, res)
  {
    assert WednesdaysOff(a, c, b, res) by {
      RulesEmissionParts(a, c, b, res, JuniorRules, 0);
      WednesdayHolds(a, b, res, c.working, c.shifts);
    }
    assert DayCallOff(a, c, b, res) by {
      RulesEmissionParts(a, c, b, res, JuniorRules, 2);
      TraumaDayHolds(a, b, res, c.working, c.shifts);
    }
    VacationGuarantee(a, c, b, res, JuniorRules, 1);
    PostCallGuarantee(a, c, b, res, JuniorRules, 3, None);
    ExpectationsGuarantee(a, c, b, res, JuniorRules, 7);
    FridayGuarantee(a, c, b, res, JuniorRules, 8, 2);
    ClaimsGuarantee(a, c, b, res, JuniorRules, 9);
  }

  /** A senior resident modelled without error satisfies every hard rule of the senior list. */
  lemma SeniorResidentGuarantee(a: Assignment, c: Context, b: nat, res: Resident)
    requires |c.shifts| > 0
    requires RulesEmission(c, b, res, SeniorRules).status == Pass
    requires AllHold(a, RulesEmission(c, b, res, SeniorRules).cs)
    ensures SeniorBlockRules(a, c, b, res)
  {
    VacationGuarantee(a, c, b, res, SeniorRules, 0);
    PostCallGuarantee(a, c, b, res, SeniorRules, 1, Some(FRIDAY));
    ExpectationsGuarantee(a, c, b, res, SeniorRules, 4);
    FridayGuarantee(a, c, b, res, SeniorRules, 5, 1);
    ClaimsGuarantee(a, c, b, res, SeniorRules, 6);
  }

  /**
   * In any assignment satisfying a model built without error, each resident's block obeys
   * the hard rules of the classification's list, and a junior trauma resident's first
   * shifts over the working days stay inside the window around their trauma expectation.
   */
  lemma ResidentGuarantee(a: Assignment, c: Context, nofill: seq<int>, schedules: map<string, nat>, first: nat, k: nat)
    requires |c.shifts| > 0
    requires SetupEmission(c, nofill, schedules, first).status == Pass
    requires AllHold(a, SetupEmission(c, nofill, schedules, first).cs)
    requires k < |c.residents|
    ensures c.classification == "junior" ==> JuniorBlockRules(a, c, first + k, c.residents[k])
    ensures c.classification == "senior" ==> SeniorBlockRules(a, c, first + k, c.residents[k])
    ensures BalancesTrauma(c, c.residents[k]) ==>
      TraumaExpectation(c.residents, c.working, c.numDays, c.residents[k]).Success? &&
      var x := TraumaExpectation(c.residents, c.working, c.numDays, c.residents[k]).value;
      BoundMet(a, first + k, TraumaShifts, ShiftColumn(first + k, c.working, c.shifts[0]), Window(x).0, Window(x).1, c.numDays)
  {
    var rules := BuildRules(c.classification).value;
    var res := c.residents[k];
    var b := first + k;
    SetupParts(a, c, nofill, schedules, first);
    ResidentsEmissionParts(a, c, rules, c.residents, first, k);
    ResidentEmissionParts(a, c, b, res, rules);
    if c.classification == "junior" {
      JuniorResidentGuarantee(a, c, b, res);
      TraumaBalanceHolds(a, b, c.residents, res, c.working, c.numDays, c.shifts);
    } else {
      SeniorResidentGuarantee(a, c, b, res);
    }
  }
}
