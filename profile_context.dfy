/** Profile strength and the journey stage as the client computes them
    (frontend/src/contexts/ProfileContext.jsx): a rubric of the same shape as
    the fit score, over the profile alone, with three text labels beside the
    percentage. */
module ProfileContext {
  import opened Js
  import opened Rubric
  import opened Records
  import opened Wrappers

  /** `{ overall, academics, exams, sop }`. */
  datatype Strength = Strength(overall: nat, academics: string, exams: string, sop: string)

  const Unknown := Strength(0, "Not specified", "Not started", "Not started")

  // ---------------------------------------------------------------------
  // The four tiers.

  /** Academic strength, 40 points: 40 from a GPA of 3.5, 30 from 3.0, 20
      from 2.5, 10 below that or when the GPA does not parse. */
  function GpaTier(p: Profile): (r: Part)
    ensures Sound(r) && r.weight == (if Truthy(p.gpa) then 40 else 0)
    ensures Truthy(p.gpa) ==> r.earned >= 10
  {
    if Truthy(p.gpa) then
      var gpa := ParseFloat(p.gpa);
      Part(if Ge(gpa, Finite(3.5)) then 40
           else if Ge(gpa, Finite(3.0)) then 30
           else if Ge(gpa, Finite(2.5)) then 20
           else 10, 40)
    else Skipped
  }

  /** `(profile.ielts && profile.ielts >= i) || (profile.toefl && profile.toefl >= t)`. */
  predicate EnglishAtLeast(p: Profile, ielts: real, toefl: real) {
    (Truthy(p.ielts) && Ge(ToNumber(p.ielts), Finite(ielts)))
    || (Truthy(p.toefl) && Ge(ToNumber(p.toefl), Finite(toefl)))
  }

  /** Exam strength, 30 points when either English score is present: 30 for
      IELTS 7.0 or TOEFL 100, 20 for IELTS 6.5 or TOEFL 90, else 10. */
  function ExamTier(p: Profile): (r: Part)
    ensures Sound(r) && r.weight == (if Truthy(p.ielts) || Truthy(p.toefl) then 30 else 0)
  {
    if Truthy(p.ielts) || Truthy(p.toefl) then
      Part(if EnglishAtLeast(p, 7.0, 100.0) then 30
           else if EnglishAtLeast(p, 6.5, 90.0) then 20
           else 10, 30)
    else Skipped
  }

  /** The same guarded test for the graduate exams. */
  predicate GraduateAtLeast(p: Profile, gre: real, gmat: real) {
    (Truthy(p.gre) && Ge(ToNumber(p.gre), Finite(gre)))
    || (Truthy(p.gmat) && Ge(ToNumber(p.gmat), Finite(gmat)))
  }

  /** Graduate exam strength, 20 points when either score is present: 20 for
      GRE 320 or GMAT 650, 10 for GRE 300 or GMAT 600, else nothing. */
  function GraduateTier(p: Profile): (r: Part)
    ensures Sound(r) && r.weight == (if Truthy(p.gre) || Truthy(p.gmat) then 20 else 0)
  {
    if Truthy(p.gre) || Truthy(p.gmat) then
      Part(if GraduateAtLeast(p, 320.0, 650.0) then 20
           else if GraduateAtLeast(p, 300.0, 600.0) then 10
           else 0, 20)
    else Skipped
  }

  /** The statement of purpose is ready (case-insensitively "ready" or
      "completed"). */
  predicate SopReady(sop: string) {
    ToLower(sop) == "ready" || ToLower(sop) == "completed"
  }

  predicate SopDraft(sop: string) {
    ToLower(sop) == "draft"
  }

  /** SOP strength, 10 points when a status is present: 10 when ready, 5 for
      a draft, else nothing. */
  function SopTier(p: Profile): (r: Part)
    ensures Sound(r) && r.weight == (if p.sopStatus != [] then 10 else 0)
  {
    if p.sopStatus != [] then
      Part(if SopReady(p.sopStatus) then 10 else if SopDraft(p.sopStatus) then 5 else 0, 10)
    else Skipped
  }

  // ---------------------------------------------------------------------
  // The labels, which test the thresholds without the truthiness guards.

  function AcademicsLabel(p: Profile): string {
    if Truthy(p.gpa) then
      if Ge(ParseFloat(p.gpa), Finite(3.5)) then "Strong"
      else if Ge(ParseFloat(p.gpa), Finite(3.0)) then "Average"
      else "Weak"
    else "Not specified"
  }

  function ExamsLabel(p: Profile): string {
    if Truthy(p.ielts) || Truthy(p.toefl) then
      if Ge(ToNumber(p.ielts), Finite(7.0)) || Ge(ToNumber(p.toefl), Finite(100.0)) then "Strong"
      else if Ge(ToNumber(p.ielts), Finite(6.5)) || Ge(ToNumber(p.toefl), Finite(90.0)) then "Average"
      else "Weak"
    else "Not started"
  }

  function SopLabel(p: Profile): string {
    if p.sopStatus != [] then
      if SopReady(p.sopStatus) then "Ready"
      else if SopDraft(p.sopStatus) then "Draft"
      else "Not started"
    else "Not started"
  }

  /** The specification of `calculateProfileStrength`. */
  function ProfileStrength(profile: Option<Profile>): (s: Strength)
    ensures s.overall <= 100
    ensures profile.None? ==> s == Unknown
  {
    match profile
    case None => Unknown
    case Some(p) =>
      var score := GpaTier(p).earned + ExamTier(p).earned + GraduateTier(p).earned + SopTier(p).earned;
      var maxScore := GpaTier(p).weight + ExamTier(p).weight + GraduateTier(p).weight + SopTier(p).weight;
      Strength(Percent(score, maxScore), AcademicsLabel(p), ExamsLabel(p), SopLabel(p))
  }

  /** The strength of a profile from its tally of points and weights. */
  lemma StrengthOfTally(p: Profile, score: nat, maxScore: nat)
    requires score == GpaTier(p).earned + ExamTier(p).earned + GraduateTier(p).earned + SopTier(p).earned
    requires maxScore == GpaTier(p).weight + ExamTier(p).weight + GraduateTier(p).weight + SopTier(p).weight
    ensures ProfileStrength(Some(p)) == Strength(Percent(score, maxScore), AcademicsLabel(p), ExamsLabel(p), SopLabel(p))
  {
  }

  /** `calculateProfileStrength(profileData)`. */
  method CalculateProfileStrength(profileData: Option<Profile>) returns (s: Strength)
    ensures s == ProfileStrength(profileData)
  {
    if profileData.None? {
      return Strength(0, "Not specified", "Not started", "Not started");
    }
    var p := profileData.value;
    var score, maxScore := 0, 0;

    if Truthy(p.gpa) {
      maxScore := maxScore + 40;
      var gpa := ParseFloat(p.gpa);
      if Ge(gpa, Finite(3.5)) {
        score := score + 40;
      } else if Ge(gpa, Finite(3.0)) {
        score := score + 30;
      } else if Ge(gpa, Finite(2.5)) {
        score := score + 20;
      } else {
        score := score + 10;
      }
    }
    assert score == GpaTier(p).earned && maxScore == GpaTier(p).weight;

    ghost var score0, maxScore0 := score, maxScore;
    if Truthy(p.ielts) || Truthy(p.toefl) {
      maxScore := maxScore + 30;
      if (Truthy(p.ielts) && Ge(ToNumber(p.ielts), Finite(7.0))) || (Truthy(p.toefl) && Ge(ToNumber(p.toefl), Finite(100.0))) {
        score := score + 30;
      } else if (Truthy(p.ielts) && Ge(ToNumber(p.ielts), Finite(6.5))) || (Truthy(p.toefl) && Ge(ToNumber(p.toefl), Finite(90.0))) {
        score := score + 20;
      } else {
        score := score + 10;
      }
    }
    assert score == score0 + ExamTier(p).earned && maxScore == maxScore0 + ExamTier(p).weight;

    ghost var score1, maxScore1 := score, maxScore;
    if Truthy(p.gre) || Truthy(p.gmat) {
      maxScore := maxScore + 20;
      if (Truthy(p.gre) && Ge(ToNumber(p.gre), Finite(320.0))) || (Truthy(p.gmat) && Ge(ToNumber(p.gmat), Finite(650.0))) {
        score := score + 20;
      } else if (Truthy(p.gre) && Ge(ToNumber(p.gre), Finite(300.0))) || (Truthy(p.gmat) && Ge(ToNumber(p.gmat), Finite(600.0))) {
        score := score + 10;
      }
    }
    assert score == score1 + GraduateTier(p).earned && maxScore == maxScore1 + GraduateTier(p).weight;

    ghost var score2, maxScore2 := score, maxScore;
    if p.sopStatus != [] {
      maxScore := maxScore + 10;
      var sop := ToLower(p.sopStatus);
      if sop == "ready" || sop == "completed" {
        score := score + 10;
      } else if sop == "draft" {
        score := score + 5;
      }
    }
    assert score == score2 + SopTier(p).earned && maxScore == maxScore2 + SopTier(p).weight;

    var percentage := if maxScore > 0 then Percent(score, maxScore) else 0;
    assert percentage == Percent(score, maxScore);
    s := Strength(percentage, AcademicsLabel(p), ExamsLabel(p), SopLabel(p));
    StrengthOfTally(p, score, maxScore);
  }

  // ---------------------------------------------------------------------
  // Properties.

  /** A profile with nothing to score gets the same result as no profile. */
  lemma NothingToScore(p: Profile)
    requires !Truthy(p.gpa) && !Truthy(p.ielts) && !Truthy(p.toefl)
    requires !Truthy(p.gre) && !Truthy(p.gmat) && p.sopStatus == []
    ensures ProfileStrength(Some(p)) == ProfileStrength(None)
  {
  }

  /** The academics label names the GPA tier: 'Strong' exactly for 40 points,
      'Average' exactly for 30, 'Weak' for 20 or 10, 'Not specified' exactly
      when the GPA is absent. */
  lemma AcademicsLabelMatchesTier(p: Profile)
    ensures AcademicsLabel(p) == "Strong" <==> GpaTier(p).earned == 40
    ensures AcademicsLabel(p) == "Average" <==> GpaTier(p).earned == 30
    ensures AcademicsLabel(p) == "Weak" <==> GpaTier(p).earned in {10, 20}
    ensures AcademicsLabel(p) == "Not specified" <==> GpaTier(p).weight == 0
  {
  }

  /** The exams label tests the thresholds without the guards, yet names the
      exam tier: a falsy score never reaches a positive threshold. */
  lemma {:induction false} ExamsLabelMatchesTier(p: Profile)
    ensures ExamsLabel(p) == "Strong" <==> ExamTier(p).earned == 30
    ensures ExamsLabel(p) == "Average" <==> ExamTier(p).earned == 20
    ensures ExamsLabel(p) == "Weak" <==> ExamTier(p).earned == 10
    ensures ExamsLabel(p) == "Not started" <==> ExamTier(p).weight == 0
  {
    FalsyBelowPositive(p.ielts, 7.0);
    FalsyBelowPositive(p.ielts, 6.5);
    FalsyBelowPositive(p.toefl, 100.0);
    FalsyBelowPositive(p.toefl, 90.0);
  }

  /** The SOP label names the SOP tier. */
  lemma SopLabelMatchesTier(p: Profile)
    ensures SopLabel(p) == "Ready" <==> SopTier(p).earned == 10
    ensures SopLabel(p) == "Draft" <==> SopTier(p).earned == 5
    ensures SopLabel(p) == "Not started" <==> SopTier(p).earned == 0
  {
  }

  /** The SOP status is compared case-insensitively. */
  lemma SopCaseInsensitive(p: Profile)
    requires p.sopStatus == "Ready" || p.sopStatus == "READY" || p.sopStatus == "Completed"
    ensures SopTier(p) == Part(10, 10)
  {
    assert ToLower("Ready") == "ready";
    assert ToLower("READY") == "ready";
    assert ToLower("Completed") == "completed";
  }

  /** A higher GPA never earns fewer academic points. */
  lemma GpaTierMonotone(p: Profile, gpa: real)
    requires Truthy(p.gpa) && ParseFloat(p.gpa).Finite? && ParseFloat(p.gpa).x <= gpa && gpa != 0.0
    ensures GpaTier(p).earned <= GpaTier(p.(gpa := Number(gpa))).earned
  {
  }

  /** `getCurrentStage(profileData)`: never empty; 'Building Profile' until the
      profile is completed, then the stored stage, by default 'Discovering
      Universities'. */
  function GetCurrentStage(profileData: Option<Profile>): (stage: string)
    ensures stage != []
    ensures profileData.None? || !profileData.value.isCompleted ==> stage == "Building Profile"
    ensures profileData.Some? && profileData.value.isCompleted ==>
      stage == (if profileData.value.stage != [] then profileData.value.stage else "Discovering Universities")
  {
    if profileData.None? then "Building Profile"
    else if !profileData.value.isCompleted then "Building Profile"
    else if profileData.value.stage != [] then profileData.value.stage
    else "Discovering Universities"
  }
}
