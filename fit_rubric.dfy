/** The fit-score rubric as a specification: four weighted components, each
    active only when both the profile and the university supply its data,
    and one rounded percentage of the points earned over the weights of the
    active components. Both copies of the calculation (the server's and the
    client's) are proved to compute `FitScore`. */
module FitRubric {
  import opened Js
  import opened Rubric
  import opened Records
  import opened Wrappers

  /** The half-credit rule shared by the GPA and exam components: the full
      weight for meeting the requirement, half of it for falling short by at
      most `margin`, nothing otherwise (and nothing when either side is NaN). */
  function Credit(user: Num, required: Num, margin: real, weight: nat): (r: nat)
    ensures r <= weight
  {
    if Ge(user, required) then weight
    else if Ge(user, Minus(required, margin)) then weight / 2
    else 0
  }

  /** Academic fit, 40 points, half credit within 0.5 of the required GPA. */
  function GpaPart(p: Profile, req: Requirements): (r: Part)
    ensures Sound(r)
    ensures r.weight == (if Truthy(p.gpa) && Truthy(req.gpa) then 40 else 0)
  {
    if Truthy(p.gpa) && Truthy(req.gpa) then
      Part(Credit(ParseFloat(p.gpa), ParseFloat(req.gpa), 0.5, 40), 40)
    else Skipped
  }

  /** English exam fit, 30 points: IELTS (half credit within 0.5) when both
      sides have it, otherwise TOEFL (half credit within 10), compared
      without parsing. */
  function EnglishPart(p: Profile, req: Requirements): (r: Part)
    ensures Sound(r)
    ensures r.weight == (if (Truthy(p.ielts) && Truthy(req.ielts)) || (Truthy(p.toefl) && Truthy(req.toefl)) then 30 else 0)
  {
    if Truthy(p.ielts) && Truthy(req.ielts) then
      Part(Credit(ParseFloat(p.ielts), ParseFloat(req.ielts), 0.5, 30), 30)
    else if Truthy(p.toefl) && Truthy(req.toefl) then
      Part(Credit(ToNumber(p.toefl), ToNumber(req.toefl), 10.0, 30), 30)
    else Skipped
  }

  /** Graduate exam fit, 20 points: GRE (half credit within 20) when both
      sides have it, otherwise GMAT (half credit within 50). */
  function ExamPart(p: Profile, req: Requirements): (r: Part)
    ensures Sound(r)
    ensures r.weight == (if (Truthy(p.gre) && Truthy(req.gre)) || (Truthy(p.gmat) && Truthy(req.gmat)) then 20 else 0)
  {
    if Truthy(p.gre) && Truthy(req.gre) then
      Part(Credit(ToNumber(p.gre), ToNumber(req.gre), 20.0, 20), 20)
    else if Truthy(p.gmat) && Truthy(req.gmat) then
      Part(Credit(ToNumber(p.gmat), ToNumber(req.gmat), 50.0, 20), 20)
    else Skipped
  }

  /** The points of the budget rule: 10 if the cost is within the budget, 5
      if it is within 120% of it, otherwise 0. */
  function BudgetCredit(budget: Num, cost: Num): (r: nat)
    ensures r in {0, 5, 10}
  {
    if Ge(budget, cost) then 10
    else if Ge(Times(budget, 1.2), cost) then 5
    else 0
  }

  /** Budget fit, 10 points. */
  function BudgetPart(p: Profile, u: University): (r: Part)
    ensures Sound(r)
    ensures r.weight == (if Truthy(p.budget) && Truthy(u.cost) then 10 else 0)
  {
    if Truthy(p.budget) && Truthy(u.cost) then
      Part(BudgetCredit(ParseFloat(p.budget), ParseFloat(u.cost)), 10)
    else Skipped
  }

  /** The points earned over all components. */
  function Score(u: University, p: Profile): (s: nat)
    ensures s <= MaxScore(u, p)
  {
    GpaPart(p, u.requirements).earned + EnglishPart(p, u.requirements).earned
      + ExamPart(p, u.requirements).earned + BudgetPart(p, u).earned
  }

  /** The weights of the active components. */
  function MaxScore(u: University, p: Profile): (m: nat)
    ensures m <= 100
  {
    GpaPart(p, u.requirements).weight + EnglishPart(p, u.requirements).weight
      + ExamPart(p, u.requirements).weight + BudgetPart(p, u).weight
  }

  /** The fit score of a university for a profile: 0 without either record
      or without any comparable data, otherwise the rounded percentage. */
  function FitScore(university: Option<University>, profile: Option<Profile>): (fit: nat)
    ensures fit <= 100
    ensures university.None? || profile.None? ==> fit == 0
    ensures university.Some? && profile.Some? && MaxScore(university.value, profile.value) == 0 ==> fit == 0
  {
    if university.None? || profile.None? then 0
    else Percent(Score(university.value, profile.value), MaxScore(university.value, profile.value))
  }

  // ---------------------------------------------------------------------
  // Precedence: IELTS before TOEFL and GRE before GMAT.

  /** When both sides have an IELTS value, the TOEFL values are never looked
      at: replacing the profile's TOEFL score leaves the fit score as it is. */
  lemma IeltsTakesPrecedence(u: University, p: Profile, toefl: NumberOrNull)
    requires Truthy(p.ielts) && Truthy(u.requirements.ielts)
    ensures EnglishPart(p.(toefl := toefl), u.requirements) == EnglishPart(p, u.requirements)
    ensures FitScore(Some(u), Some(p.(toefl := toefl))) == FitScore(Some(u), Some(p))
  {
    var q, req := p.(toefl := toefl), u.requirements;
    assert GpaPart(q, req) == GpaPart(p, req) && EnglishPart(q, req) == EnglishPart(p, req);
    assert ExamPart(q, req) == ExamPart(p, req) && BudgetPart(q, u) == BudgetPart(p, u);
  }

  /** When the university states no IELTS requirement, the profile's IELTS
      value is never looked at, so TOEFL alone decides the English part. */
  lemma ToeflWithoutIeltsRequirement(u: University, p: Profile, ielts: Value)
    requires !Truthy(u.requirements.ielts)
    ensures FitScore(Some(u), Some(p.(ielts := ielts))) == FitScore(Some(u), Some(p))
  {
    var q, req := p.(ielts := ielts), u.requirements;
    assert GpaPart(q, req) == GpaPart(p, req) && EnglishPart(q, req) == EnglishPart(p, req);
    assert ExamPart(q, req) == ExamPart(p, req) && BudgetPart(q, u) == BudgetPart(p, u);
  }

  /** When both sides have a GRE value, the GMAT values are never looked at. */
  lemma GreTakesPrecedence(u: University, p: Profile, gmat: NumberOrNull)
    requires Truthy(p.gre) && Truthy(u.requirements.gre)
    ensures ExamPart(p.(gmat := gmat), u.requirements) == ExamPart(p, u.requirements)
    ensures FitScore(Some(u), Some(p.(gmat := gmat))) == FitScore(Some(u), Some(p))
  {
    var q, req := p.(gmat := gmat), u.requirements;
    assert GpaPart(q, req) == GpaPart(p, req) && EnglishPart(q, req) == EnglishPart(p, req);
    assert ExamPart(q, req) == ExamPart(p, req) && BudgetPart(q, u) == BudgetPart(p, u);
  }

  /** When the university states no GRE requirement, the profile's GRE score
      is never looked at. */
  lemma GmatWithoutGreRequirement(u: University, p: Profile, gre: NumberOrNull)
    requires !Truthy(u.requirements.gre)
    ensures FitScore(Some(u), Some(p.(gre := gre))) == FitScore(Some(u), Some(p))
  {
    var q, req := p.(gre := gre), u.requirements;
    assert GpaPart(q, req) == GpaPart(p, req) && EnglishPart(q, req) == EnglishPart(p, req);
    assert ExamPart(q, req) == ExamPart(p, req) && BudgetPart(q, u) == BudgetPart(p, u);
  }

  // ---------------------------------------------------------------------
  // The credit levels, seen through the final percentage.

  /** When GPA is the only comparable data, the fit score is 100 for meeting
      the required GPA, 50 for falling short by at most 0.5, and 0 below that
      or when either GPA does not parse. */
  lemma GpaOnlyScore(u: University, p: Profile)
    requires Truthy(p.gpa) && Truthy(u.requirements.gpa)
    requires EnglishPart(p, u.requirements).weight == 0 && ExamPart(p, u.requirements).weight == 0
    requires BudgetPart(p, u).weight == 0
    ensures var user, req := ParseFloat(p.gpa), ParseFloat(u.requirements.gpa);
      FitScore(Some(u), Some(p)) ==
        if user.Finite? && req.Finite? && user.x >= req.x then 100
        else if user.Finite? && req.Finite? && user.x >= req.x - 0.5 then 50
        else 0
  {
    PercentEnds(40);
    assert Percent(20, 40) == 50;
  }

  /** When the budget is the only comparable data, the fit score is 100 for a
      cost within the budget, 50 for a cost within 120% of it, else 0. */
  lemma BudgetOnlyScore(u: University, p: Profile)
    requires Truthy(p.budget) && Truthy(u.cost)
    requires GpaPart(p, u.requirements).weight == 0 && EnglishPart(p, u.requirements).weight == 0
    requires ExamPart(p, u.requirements).weight == 0
    ensures var budget, cost := ParseFloat(p.budget), ParseFloat(u.cost);
      FitScore(Some(u), Some(p)) ==
        if budget.Finite? && cost.Finite? && cost.x <= budget.x then 100
        else if budget.Finite? && cost.Finite? && cost.x <= budget.x * 1.2 then 50
        else 0
  {
    PercentEnds(10);
    assert Percent(5, 10) == 50;
  }

  /** Meeting every stated requirement gives exactly 100, as soon as at
      least one component is comparable. */
  lemma FullMarks(u: University, p: Profile)
    requires MaxScore(u, p) > 0
    requires GpaPart(p, u.requirements).earned == GpaPart(p, u.requirements).weight
    requires EnglishPart(p, u.requirements).earned == EnglishPart(p, u.requirements).weight
    requires ExamPart(p, u.requirements).earned == ExamPart(p, u.requirements).weight
    requires BudgetPart(p, u).earned == BudgetPart(p, u).weight
    ensures FitScore(Some(u), Some(p)) == 100
  {
    PercentEnds(MaxScore(u, p));
  }

  // ---------------------------------------------------------------------
  // Monotonicity: raising one profile value never lowers the score.

  /** The profile fields the rubric reads. */
  datatype Field = Gpa | Ielts | Toefl | Gre | Gmat | Budget

  function Get(p: Profile, f: Field): Value {
    match f
    case Gpa => p.gpa
    case Ielts => p.ielts
    case Toefl => p.toefl
    case Gre => p.gre
    case Gmat => p.gmat
    case Budget => p.budget
  }

  /** The fields whose column holds a number or null. */
  predicate IsNumberField(f: Field) {
    f.Toefl? || f.Gre? || f.Gmat?
  }

  /** `p` with field `f` replaced by `v`. */
  function With(p: Profile, f: Field, v: Value): (q: Profile)
    requires IsNumberField(f) ==> v.Undefined? || v.Null? || v.Number?
    ensures Get(q, f) == v
  {
    match f
    case Gpa => p.(gpa := v)
    case Ielts => p.(ielts := v)
    case Toefl => p.(toefl := v)
    case Gre => p.(gre := v)
    case Gmat => p.(gmat := v)
    case Budget => p.(budget := v)
  }

  /** `b` is a present value at least as large as the present value `a`:
      both are truthy, and if `a` reads as a number so does `b`, no smaller. */
  predicate Raised(a: Value, b: Value) {
    && Truthy(a) && Truthy(b)
    && (ParseFloat(a).Finite? ==> ParseFloat(b).Finite? && ParseFloat(b).x >= ParseFloat(a).x)
  }

  /** A larger user value never earns less credit. */
  lemma CreditMonotone(a: Num, b: Num, required: Num, margin: real, weight: nat)
    requires a.Finite? ==> b.Finite? && b.x >= a.x
    ensures Credit(a, required, margin, weight) <= Credit(b, required, margin, weight)
  {
  }

  /** A larger budget never earns less credit. */
  lemma BudgetCreditMonotone(a: Num, b: Num, cost: Num)
    requires a.Finite? ==> b.Finite? && b.x >= a.x
    ensures BudgetCredit(a, cost) <= BudgetCredit(b, cost)
  {
    if Ge(Times(a, 1.2), cost) && !Ge(a, cost) {
      assert a.x * 1.2 <= b.x * 1.2;
    }
  }

  /** Every component of `q` is as active as that of `p` and earns no less. */
  predicate PartsDominate(u: University, p: Profile, q: Profile) {
    var req := u.requirements;
    && GpaPart(q, req).weight == GpaPart(p, req).weight && GpaPart(q, req).earned >= GpaPart(p, req).earned
    && EnglishPart(q, req).weight == EnglishPart(p, req).weight && EnglishPart(q, req).earned >= EnglishPart(p, req).earned
    && ExamPart(q, req).weight == ExamPart(p, req).weight && ExamPart(q, req).earned >= ExamPart(p, req).earned
    && BudgetPart(q, u).weight == BudgetPart(p, u).weight && BudgetPart(q, u).earned >= BudgetPart(p, u).earned
  }

  /** Component-wise dominance never lowers the fit score. */
  lemma DominanceRaisesScore(u: University, p: Profile, q: Profile)
    requires PartsDominate(u, p, q)
    ensures FitScore(Some(u), Some(q)) >= FitScore(Some(u), Some(p))
  {
    PercentMonotone(Score(u, p), Score(u, q), MaxScore(u, p));
  }

  /** With the university and every other profile value fixed, raising one
      present profile value to a larger present value never lowers the fit
      score: the same components stay active and none earns less. */
  lemma {:induction false} RaisingOneValueNeverLowers(u: University, p: Profile, f: Field, v: Value)
    requires Raised(Get(p, f), v)
    requires IsNumberField(f) ==> v.Undefined? || v.Null? || v.Number?
    ensures FitScore(Some(u), Some(With(p, f, v))) >= FitScore(Some(u), Some(p))
  {
    var q := With(p, f, v);
    var req := u.requirements;
    match f {
      case Gpa =>
        assert q == p.(gpa := v);
        CreditMonotone(ParseFloat(p.gpa), ParseFloat(v), ParseFloat(req.gpa), 0.5, 40);
        assert PartsDominate(u, p, q);
      case Ielts =>
        assert q == p.(ielts := v);
        CreditMonotone(ParseFloat(p.ielts), ParseFloat(v), ParseFloat(req.ielts), 0.5, 30);
        assert PartsDominate(u, p, q);
      case Toefl =>
        assert q == p.(toefl := v);
        CreditMonotone(ToNumber(p.toefl), ToNumber(v), ToNumber(req.toefl), 10.0, 30);
        assert PartsDominate(u, p, q);
      case Gre =>
        assert q == p.(gre := v);
        CreditMonotone(ToNumber(p.gre), ToNumber(v), ToNumber(req.gre), 20.0, 20);
        assert PartsDominate(u, p, q);
      case Gmat =>
        assert q == p.(gmat := v);
        CreditMonotone(ToNumber(p.gmat), ToNumber(v), ToNumber(req.gmat), 50.0, 20);
        assert PartsDominate(u, p, q);
      case Budget =>
        assert q == p.(budget := v);
        BudgetCreditMonotone(ParseFloat(p.budget), ParseFloat(v), ParseFloat(u.cost));
        assert PartsDominate(u, p, q);
    }
    DominanceRaisesScore(u, p, q);
  }
}
