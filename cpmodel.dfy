/**
 * The constraint vocabulary the scheduler hands to the CP-SAT engine, and its meaning
 * over an assignment of values to variables. Only the calls the scheduler makes are
 * modelled: variable domains, unit-coefficient linear (in)equalities with optional
 * enforcement literals, at-most-one, exactly-one, xor, implication and conjunction.
 */
module CpModel {
  import opened Wrappers
  import opened Lists

  /** The three `strictly_bounded` quantities; each names its own auxiliary variables. */
  datatype Bound = TraumaShifts | TotalShifts | WeekendShift

  /** Auxiliary variables, each created once per resident block by one rule. */
  datatype AuxKind =
    | Taken(bound: Bound)
    | LowerReached(bound: Bound)
    | UpperReached(bound: Bound)
    | FullDayViolated(day: nat)
    | HalfDayPenalty(day: nat)
    | FridayConflict(friday: nat)
    | FridayPenalty(friday: nat)
    | ExceedsMax(week: nat)
    | WeeklyPenalty(week: nat)
    | WeeklyExceeds(week: nat, count: int)

  /**
   * `X(b, d, s)` is the boolean "the resident owning block `b` works shift `s` on day `d`";
   * a block is the variable table one `add_resident_model` call creates.
   */
  datatype Var = X(block: nat, day: nat, shift: string) | Aux(owner: nat, kind: AuxKind)

  /** Values for every variable: decision variables are booleans, auxiliaries integers. */
  datatype Assignment = Assignment(x: (nat, nat, string) -> bool, aux: (nat, AuxKind) -> int)

  datatype Lit = Pos(v: Var) | Neg(v: Var)

  /** A sum of variables plus a constant. */
  datatype LinExpr = LinExpr(vars: seq<Var>, offset: int)

  datatype Cmp = Eq | Ne | Le | Ge | Gt

  datatype Constraint =
    | Domain(v: Var, lo: int, hi: int)
    | Linear(lhs: LinExpr, cmp: Cmp, rhs: LinExpr, enforce: seq<Lit>)
    | AtMostOne(lits: seq<Lit>)
    | ExactlyOne(lits: seq<Lit>)
    | BoolXor(lits: seq<Lit>)
    | Implication(premise: Lit, conclusion: Lit)
    | BoolAnd(conjuncts: seq<Lit>, guard: seq<Lit>)

  /** What one rule appends to the model and to the penalty list, and whether it raised. */
  datatype Emission = Emission(cs: seq<Constraint>, ps: seq<Var>, status: Outcome)

  function Const(k: int): LinExpr { LinExpr([], k) }

  function OfVar(v: Var): LinExpr { LinExpr([v], 0) }

  function SumOf(vs: seq<Var>): LinExpr { LinExpr(vs, 0) }

  /** `model.Add(v == value)`. */
  function FixTo(v: Var, value: int): Constraint
  {
    Linear(OfVar(v), Eq, Const(value), [])
  }

  /** Runs `second` after `first` unless `first` raised. */
  function Then(first: Emission, second: Emission): (e: Emission)
    ensures first.status.Fail? ==> e == first
    ensures first.status.Pass? ==> e.cs == first.cs + second.cs && e.ps == first.ps + second.ps
    ensures first.status.Pass? ==> e.status == second.status
  {
    if first.status.Fail? then first
    else Emission(first.cs + second.cs, first.ps + second.ps, second.status)
  }

  function Done(cs: seq<Constraint>): Emission { Emission(cs, [], Pass) }

  // ---------------------------------------------------------------- semantics

  function Value(a: Assignment, v: Var): int
  {
    match v
    case X(b, d, s) => if a.x(b, d, s) then 1 else 0
    case Aux(o, k) => a.aux(o, k)
  }

  predicate LitHolds(a: Assignment, l: Lit)
  {
    match l
    case Pos(v) => Value(a, v) == 1
    case Neg(v) => Value(a, v) == 0
  }

  predicate AllLits(a: Assignment, ls: seq<Lit>)
  {
    forall i :: 0 <= i < |ls| ==> LitHolds(a, ls[i])
  }

  /** The number of literals of `ls` that hold. */
  function CountTrue(a: Assignment, ls: seq<Lit>): nat
  {
    if |ls| == 0 then 0
    else (if LitHolds(a, ls[0]) then 1 else 0) + CountTrue(a, ls[1..])
  }

  /** The sum of the values of `vs`. */
  function SumValues(a: Assignment, vs: seq<Var>): int
  {
    if |vs| == 0 then 0 else SumValues(a, vs[..|vs| - 1]) + Value(a, Last(vs))
  }

  function Eval(a: Assignment, e: LinExpr): int
  {
    SumValues(a, e.vars) + e.offset
  }

  predicate Compare(x: int, cmp: Cmp, y: int)
  {
    match cmp
    case Eq => x == y
    case Ne => x != y
    case Le => x <= y
    case Ge => x >= y
    case Gt => x > y
  }

  predicate Holds(a: Assignment, c: Constraint)
  {
    match c
    case Domain(v, lo, hi) => lo <= Value(a, v) <= hi
    case Linear(l, cmp, r, en) => AllLits(a, en) ==> Compare(Eval(a, l), cmp, Eval(a, r))
    case AtMostOne(ls) => CountTrue(a, ls) <= 1
    case ExactlyOne(ls) => CountTrue(a, ls) == 1
    case BoolXor(ls) => CountTrue(a, ls) % 2 == 1
    case Implication(p, q) => LitHolds(a, p) ==> LitHolds(a, q)
    case BoolAnd(ls, en) => AllLits(a, en) ==> AllLits(a, ls)
  }

  predicate AllHold(a: Assignment, cs: seq<Constraint>)
  {
    forall i :: 0 <= i < |cs| ==> Holds(a, cs[i])
  }

  /** The objective `sum(penalties)` under `a`. */
  function PenaltySum(a: Assignment, ps: seq<Var>): int
  {
    SumValues(a, ps)
  }

  // ---------------------------------------------------------------- general facts

  lemma AllHoldConcat(a: Assignment, xs: seq<Constraint>, ys: seq<Constraint>)
    ensures AllHold(a, xs + ys) <==> AllHold(a, xs) && AllHold(a, ys)
  {
    if AllHold(a, xs) && AllHold(a, ys) {
      forall i | 0 <= i < |xs + ys| ensures Holds(a, (xs + ys)[i]) {
        if i < |xs| { assert (xs + ys)[i] == xs[i]; } else { assert (xs + ys)[i] == ys[i - |xs|]; }
      }
    }
    if AllHold(a, xs + ys) {
      forall i | 0 <= i < |xs| ensures Holds(a, xs[i]) { assert (xs + ys)[i] == xs[i]; }
      forall i | 0 <= i < |ys| ensures Holds(a, ys[i]) { assert (xs + ys)[|xs| + i] == ys[i]; }
    }
  }

  /** After a first emission that did not raise, the constraints of both hold exactly when those of the sequence do. */
  lemma AllHoldThen(a: Assignment, first: Emission, second: Emission)
    requires first.status == Pass
    ensures AllHold(a, Then(first, second).cs) <==> AllHold(a, first.cs) && AllHold(a, second.cs)
  {
    AllHoldConcat(a, first.cs, second.cs);
  }

  /** `model.Add(v == value)` holds exactly when `v` takes `value`. */
  lemma FixToHolds(a: Assignment, v: Var, value: int)
    ensures Holds(a, FixTo(v, value)) <==> Value(a, v) == value
  {
    assert SumValues(a, [v]) == SumValues(a, []) + Value(a, v);
  }

  /** A linear constraint with one enforcement literal binds only when that literal holds. */
  lemma LinearGuarded(a: Assignment, l: Lit, lhs: LinExpr, cmp: Cmp, rhs: LinExpr)
    ensures Holds(a, Linear(lhs, cmp, rhs, [l])) <==> (LitHolds(a, l) ==> Compare(Eval(a, lhs), cmp, Eval(a, rhs)))
  {
    assert [l][0] == l;
  }

  lemma EvalOfVar(a: Assignment, v: Var)
    ensures Eval(a, OfVar(v)) == Value(a, v)
  {
    assert SumValues(a, [v]) == SumValues(a, []) + Value(a, v);
  }

  lemma AllHoldOne(a: Assignment, c: Constraint)
    ensures AllHold(a, [c]) <==> Holds(a, c)
  {
    assert [c][0] == c;
  }

  lemma {:induction false} SumValuesConcat(a: Assignment, xs: seq<Var>, ys: seq<Var>)
    ensures SumValues(a, xs + ys) == SumValues(a, xs) + SumValues(a, ys)
    decreases |ys|
  {
    if |ys| == 0 {
      assert xs + ys == xs;
    } else {
      var ys' := ys[..|ys| - 1];
      assert (xs + ys)[..|xs + ys| - 1] == xs + ys';
      SumValuesConcat(a, xs, ys');
    }
  }

  /** A sum of decision variables does not depend on the auxiliary values. */
  lemma {:induction false} SumValuesOfDecisions(a: Assignment, a': Assignment, vs: seq<Var>)
    requires a'.x == a.x
    requires forall i :: 0 <= i < |vs| ==> vs[i].X?
    ensures SumValues(a', vs) == SumValues(a, vs)
    decreases |vs|
  {
    if |vs| > 0 {
      SumValuesOfDecisions(a, a', vs[..|vs| - 1]);
    }
  }

  /** A list holding one variable `k` times sums to `k` times its value. */
  lemma {:induction false} SumValuesRepeated(a: Assignment, vs: seq<Var>, v: Var)
    requires forall i :: 0 <= i < |vs| ==> vs[i] == v
    ensures SumValues(a, vs) == |vs| * Value(a, v)
    decreases |vs|
  {
    if |vs| > 0 {
      var k := |vs| - 1;
      SumValuesRepeated(a, vs[..k], v);
      assert Last(vs) == v;
      OneMore(k, Value(a, v));
    }
  }

  lemma OneMore(k: int, x: int)
    ensures (k + 1) * x == k * x + x
  {
  }

  /** A lower bound on every value of `vs` bounds their sum. */
  lemma {:induction false} SumValuesAtLeast(a: Assignment, vs: seq<Var>)
    requires forall i :: 0 <= i < |vs| ==> Value(a, vs[i]) >= 0
    ensures SumValues(a, vs) >= 0
    decreases |vs|
  {
    if |vs| > 0 {
      SumValuesAtLeast(a, vs[..|vs| - 1]);
    }
  }

  /** `AtMostOne(p, q)` forbids exactly the case where both hold. */
  lemma AtMostOneOfTwo(a: Assignment, p: Lit, q: Lit)
    ensures Holds(a, AtMostOne([p, q])) <==> !(LitHolds(a, p) && LitHolds(a, q))
  {
    assert [p, q][1..] == [q];
    assert [q][1..] == [];
    assert CountTrue(a, [q]) == (if LitHolds(a, q) then 1 else 0) + CountTrue(a, []);
  }

  /** `ExactlyOne` holds exactly when one position holds and no other does. */
  lemma CountTrueIsOne(a: Assignment, ls: seq<Lit>)
    ensures CountTrue(a, ls) == 1 <==>
      exists i :: 0 <= i < |ls| && LitHolds(a, ls[i]) &&
        forall j :: 0 <= j < |ls| && j != i ==> !LitHolds(a, ls[j])
  {
    if CountTrue(a, ls) == 1 {
      CountTrueOneHolds(a, ls);
    }
    if exists i :: 0 <= i < |ls| && LitHolds(a, ls[i]) &&
        forall j :: 0 <= j < |ls| && j != i ==> !LitHolds(a, ls[j]) {
      var i :| 0 <= i < |ls| && LitHolds(a, ls[i]) &&
        forall j :: 0 <= j < |ls| && j != i ==> !LitHolds(a, ls[j]);
      CountTrueOnlyOne(a, ls, i);
    }
  }

  /** A count of one is one true position and no other. */
  lemma {:induction false} CountTrueOneHolds(a: Assignment, ls: seq<Lit>)
    requires CountTrue(a, ls) == 1
    ensures exists i ::
      0 <= i < |ls| && LitHolds(a, ls[i]) && forall j :: 0 <= j < |ls| && j != i ==> !LitHolds(a, ls[j])
    decreases |ls|
  {
    if LitHolds(a, ls[0]) {
      CountTrueIsZero(a, ls[1..]);
      forall j | 0 < j < |ls| ensures !LitHolds(a, ls[j]) { assert ls[1..][j - 1] == ls[j]; }
      assert LitHolds(a, ls[0]);
    } else {
      CountTrueOneHolds(a, ls[1..]);
      var k :| 0 <= k < |ls[1..]| && LitHolds(a, ls[1..][k]) &&
        forall j :: 0 <= j < |ls[1..]| && j != k ==> !LitHolds(a, ls[1..][j]);
      assert LitHolds(a, ls[k + 1]);
      forall j | 0 <= j < |ls| && j != k + 1 ensures !LitHolds(a, ls[j]) {
        if j > 0 { assert ls[1..][j - 1] == ls[j]; }
      }
    }
  }

  /** One true position and no other count as one. */
  lemma {:induction false} CountTrueOnlyOne(a: Assignment, ls: seq<Lit>, i: nat)
    requires i < |ls| && LitHolds(a, ls[i])
    requires forall j :: 0 <= j < |ls| && j != i ==> !LitHolds(a, ls[j])
    ensures CountTrue(a, ls) == 1
    decreases |ls|
  {
    if i == 0 {
      forall j | 0 <= j < |ls[1..]| ensures !LitHolds(a, ls[1..][j]) { assert ls[1..][j] == ls[j + 1]; }
      CountTrueIsZero(a, ls[1..]);
    } else {
      forall j | 0 <= j < |ls[1..]| && j != i - 1 ensures !LitHolds(a, ls[1..][j]) {
        assert ls[1..][j] == ls[j + 1];
      }
      assert ls[1..][i - 1] == ls[i];
      CountTrueOnlyOne(a, ls[1..], i - 1);
    }
  }

  lemma {:induction false} CountTrueIsZero(a: Assignment, ls: seq<Lit>)
    ensures CountTrue(a, ls) == 0 <==> forall j :: 0 <= j < |ls| ==> !LitHolds(a, ls[j])
    decreases |ls|
  {
    if |ls| > 0 {
      CountTrueIsZero(a, ls[1..]);
      assert forall j :: 0 < j < |ls| ==> ls[1..][j - 1] == ls[j];
    }
  }

}
