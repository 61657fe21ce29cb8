/** The client's university state (frontend/src/contexts/UniversityContext.jsx):
    the list shown to the student, the last recommendations, the error
    banner, the client copy of the fit score and the optimistic flag updates
    made after a shortlist, lock or unlock request succeeds. */
module UniversityContext {
  import opened Js
  import opened Rubric
  import opened Records
  import opened Wrappers
  import opened FitRubric
  import UniversityRoutes

  // ---------------------------------------------------------------------
  // The client copy of the rubric.

  /** The client's `calculateFitScore`, a line-for-line copy of the server's:
      it computes the same `FitScore`, so client and server always agree. */
  method CalculateFitScore(university: Option<University>, profile: Option<Profile>) returns (fit: nat)
    ensures fit == FitScore(university, profile)
  {
    if profile.None? || university.None? {
      return 0;
    }
    var p, u := profile.value, university.value;
    var score, maxScore := 0, 0;

    if Truthy(p.gpa) && Truthy(u.requirements.gpa) {
      maxScore := maxScore + 40;
      var userGpa, reqGpa := ParseFloat(p.gpa), ParseFloat(u.requirements.gpa);
      if Ge(userGpa, reqGpa) {
        score := score + 40;
      } else if Ge(userGpa, Minus(reqGpa, 0.5)) {
        score := score + 20;
      }
    }
    ghost var gpa := GpaPart(p, u.requirements);
    assert score == gpa.earned && maxScore == gpa.weight;

    if Truthy(p.ielts) && Truthy(u.requirements.ielts) {
      maxScore := maxScore + 30;
      var userIelts, reqIelts := ParseFloat(p.ielts), ParseFloat(u.requirements.ielts);
      if Ge(userIelts, reqIelts) {
        score := score + 30;
      } else if Ge(userIelts, Minus(reqIelts, 0.5)) {
        score := score + 15;
      }
    } else if Truthy(p.toefl) && Truthy(u.requirements.toefl) {
      maxScore := maxScore + 30;
      if Ge(ToNumber(p.toefl), ToNumber(u.requirements.toefl)) {
        score := score + 30;
      } else if Ge(ToNumber(p.toefl), Minus(ToNumber(u.requirements.toefl), 10.0)) {
        score := score + 15;
      }
    }
    ghost var english := EnglishPart(p, u.requirements);
    assert score == gpa.earned + english.earned && maxScore == gpa.weight + english.weight;

    if Truthy(p.gre) && Truthy(u.requirements.gre) {
      maxScore := maxScore + 20;
      if Ge(ToNumber(p.gre), ToNumber(u.requirements.gre)) {
        score := score + 20;
      } else if Ge(ToNumber(p.gre), Minus(ToNumber(u.requirements.gre), 20.0)) {
        score := score + 10;
      }
    } else if Truthy(p.gmat) && Truthy(u.requirements.gmat) {
      maxScore := maxScore + 20;
      if Ge(ToNumber(p.gmat), ToNumber(u.requirements.gmat)) {
        score := score + 20;
      } else if Ge(ToNumber(p.gmat), Minus(ToNumber(u.requirements.gmat), 50.0)) {
        score := score + 10;
      }
    }
    ghost var exam := ExamPart(p, u.requirements);
    assert score == gpa.earned + english.earned + exam.earned;
    assert maxScore == gpa.weight + english.weight + exam.weight;

    // `cost <= budget`, then `cost <= budget * 1.2`
    if Truthy(p.budget) && Truthy(u.cost) {
      maxScore := maxScore + 10;
      var budget, cost := ParseFloat(p.budget), ParseFloat(u.cost);
      if Ge(budget, cost) {
        score := score + 10;
      } else if Ge(Times(budget, 1.2), cost) {
        score := score + 5;
      }
    }
    assert score == Score(u, p) && maxScore == MaxScore(u, p);
    fit := if maxScore > 0 then Percent(score, maxScore) else 0;
  }

  /** The client's `categorizeUniversity(university, profile)`: the server's
      bands applied to the client's own score. */
  method CategorizeUniversity(university: Option<University>, profile: Option<Profile>) returns (c: Category)
    ensures c == UniversityRoutes.CategorizeUniversity(FitScore(university, profile))
    ensures university.None? || profile.None? ==> c == Dream
  {
    var fitScore := CalculateFitScore(university, profile);
    if fitScore >= 80 {
      return Safe;
    }
    if fitScore >= 60 {
      return Target;
    }
    return Dream;
  }

  // ---------------------------------------------------------------------
  // The optimistic list updates.

  /** `prev.map(u => u.id === id ? { ...u, isShortlisted: true } : u)`. */
  function MarkShortlisted(list: seq<Entry>, universityId: Id): (r: seq<Entry>)
    ensures |r| == |list|
    ensures forall i :: 0 <= i < |list| ==>
      r[i] == if list[i].university.id == universityId then list[i].(isShortlisted := true) else list[i]
  {
    seq(|list|, i requires 0 <= i < |list| =>
      if list[i].university.id == universityId then list[i].(isShortlisted := true) else list[i])
  }

  /** `prev.map(u => u.id === id ? { ...u, isLocked: true, isShortlisted: true } : u)`. */
  function MarkLocked(list: seq<Entry>, universityId: Id): (r: seq<Entry>)
    ensures |r| == |list|
    ensures forall i :: 0 <= i < |list| ==>
      r[i] == if list[i].university.id == universityId then list[i].(isLocked := true, isShortlisted := true) else list[i]
  {
    seq(|list|, i requires 0 <= i < |list| =>
      if list[i].university.id == universityId then list[i].(isLocked := true, isShortlisted := true) else list[i])
  }

  /** `prev.map(u => u.id === id ? { ...u, isLocked: false } : u)`. */
  function MarkUnlocked(list: seq<Entry>, universityId: Id): (r: seq<Entry>)
    ensures |r| == |list|
    ensures forall i :: 0 <= i < |list| ==>
      r[i] == if list[i].university.id == universityId then list[i].(isLocked := false) else list[i]
  {
    seq(|list|, i requires 0 <= i < |list| =>
      if list[i].university.id == universityId then list[i].(isLocked := false) else list[i])
  }

  /** Locked entries are always shortlisted ones. */
  ghost predicate LockedAreShortlisted(list: seq<Entry>) {
    forall i :: 0 <= i < |list| ==> list[i].isLocked ==> list[i].isShortlisted
  }

  /** Two entries list the same university with the same score and tier. */
  predicate SameScoring(a: Entry, b: Entry) {
    a.university == b.university && a.fitScore == b.fitScore && a.category == b.category
  }

  /** Every update keeps locked entries shortlisted, keeps the length, and
      leaves every entry's university, score and tier untouched. */
  lemma MarksKeepInvariant(list: seq<Entry>, universityId: Id)
    requires LockedAreShortlisted(list)
    ensures LockedAreShortlisted(MarkShortlisted(list, universityId))
    ensures LockedAreShortlisted(MarkLocked(list, universityId))
    ensures LockedAreShortlisted(MarkUnlocked(list, universityId))
    ensures |MarkShortlisted(list, universityId)| == |MarkLocked(list, universityId)| == |MarkUnlocked(list, universityId)| == |list|
    ensures forall i :: 0 <= i < |list| ==>
      && SameScoring(MarkShortlisted(list, universityId)[i], list[i])
      && SameScoring(MarkLocked(list, universityId)[i], list[i])
      && SameScoring(MarkUnlocked(list, universityId)[i], list[i])
  {
  }

  /** Repeating an update changes nothing. */
  lemma MarksIdempotent(list: seq<Entry>, universityId: Id)
    ensures MarkShortlisted(MarkShortlisted(list, universityId), universityId) == MarkShortlisted(list, universityId)
    ensures MarkLocked(MarkLocked(list, universityId), universityId) == MarkLocked(list, universityId)
    ensures MarkUnlocked(MarkUnlocked(list, universityId), universityId) == MarkUnlocked(list, universityId)
  {
    var s := MarkShortlisted(list, universityId);
    assert MarkShortlisted(s, universityId) == s;
    var l := MarkLocked(list, universityId);
    assert MarkLocked(l, universityId) == l;
    var u := MarkUnlocked(list, universityId);
    assert MarkUnlocked(u, universityId) == u;
  }

  /** Locking and then unlocking leaves the university shortlisted and
      unlocked, as the server does; an unlock never removes the shortlist
      flag. */
  lemma LockThenUnlock(list: seq<Entry>, universityId: Id)
    ensures MarkUnlocked(MarkLocked(list, universityId), universityId)
         == MarkUnlocked(MarkShortlisted(list, universityId), universityId)
    ensures forall i :: 0 <= i < |list| ==>
      MarkUnlocked(list, universityId)[i].isShortlisted == list[i].isShortlisted
  {
    var a := MarkUnlocked(MarkLocked(list, universityId), universityId);
    var b := MarkUnlocked(MarkShortlisted(list, universityId), universityId);
    assert forall i :: 0 <= i < |list| ==> a[i] == b[i];
  }

  // ---------------------------------------------------------------------
  // The state and its handlers. The request itself is a parameter: `Ok`
  // for a success and `Failed` with the server's message, if any.

  datatype Reply<T> = Ok(value: T) | Failed(message: Option<string>)

  /** `{ success, universities?, error? }` as a handler returns it. */
  datatype Outcome = Outcome(success: bool, universities: seq<Entry>, error: Option<string>)

  /** `error.response?.data?.message || fallback`. */
  function ErrorText(message: Option<string>, fallback: string): (r: string)
    ensures r != [] || fallback == []
    ensures message.Some? && message.value != [] ==> r == message.value
  {
    if message.Some? && message.value != [] then message.value else fallback
  }

  class UniversityState {
    var universities: seq<Entry>
    var recommendedUniversities: seq<Entry>
    var loading: bool
    var error: Option<string>

    constructor ()
      ensures universities == [] && recommendedUniversities == [] && !loading && error == None
    {
      universities := [];
      recommendedUniversities := [];
      loading := false;
      error := None;
    }

    /** `getUniversities`: replaces the list, or reports the error. */
    method GetUniversities(reply: Reply<seq<Entry>>) returns (r: Outcome)
      modifies this
      ensures !loading && recommendedUniversities == old(recommendedUniversities)
      ensures reply.Ok? ==> universities == reply.value && error == None && r == Outcome(true, reply.value, None)
      ensures reply.Failed? ==>
        var message := ErrorText(reply.message, "Failed to fetch universities");
        universities == old(universities) && error == Some(message) && r == Outcome(false, [], Some(message))
    {
      loading := true;
      error := None;
      if reply.Ok? {
        universities := reply.value;
        r := Outcome(true, reply.value, None);
      } else {
        var message := ErrorText(reply.message, "Failed to fetch universities");
        error := Some(message);
        r := Outcome(false, [], Some(message));
      }
      loading := false;
    }

    /** `getRecommendations`: the recommendations become both lists. */
    method GetRecommendations(reply: Reply<seq<Entry>>) returns (r: Outcome)
      modifies this
      ensures !loading
      ensures reply.Ok? ==>
        && universities == reply.value && recommendedUniversities == reply.value
        && error == None && r == Outcome(true, reply.value, None)
      ensures reply.Failed? ==>
        var message := ErrorText(reply.message, "Failed to get recommendations");
        && universities == old(universities) && recommendedUniversities == old(recommendedUniversities)
        && error == Some(message) && r == Outcome(false, [], Some(message))
    {
      loading := true;
      error := None;
      if reply.Ok? {
        recommendedUniversities := reply.value;
        universities := reply.value;
        r := Outcome(true, reply.value, None);
      } else {
        var message := ErrorText(reply.message, "Failed to get recommendations");
        error := Some(message);
        r := Outcome(false, [], Some(message));
      }
      loading := false;
    }

    /** `shortlistUniversity`: on success the entries of the university are
        flagged as shortlisted. */
    method ShortlistUniversity(universityId: Id, reply: Reply<()>) returns (r: Outcome)
      modifies this
      ensures !loading && recommendedUniversities == old(recommendedUniversities)
      ensures reply.Ok? ==>
        universities == MarkShortlisted(old(universities), universityId) && error == None && r == Outcome(true, [], None)
      ensures reply.Failed? ==>
        var message := ErrorText(reply.message, "Failed to shortlist university");
        universities == old(universities) && error == Some(message) && r == Outcome(false, [], Some(message))
    {
      loading := true;
      error := None;
      if reply.Ok? {
        universities := MarkShortlisted(universities, universityId);
        r := Outcome(true, [], None);
      } else {
        var message := ErrorText(reply.message, "Failed to shortlist university");
        error := Some(message);
        r := Outcome(false, [], Some(message));
      }
      loading := false;
    }

    /** `lockUniversity`: on success the entries are flagged as locked and
        shortlisted. */
    method LockUniversity(universityId: Id, reply: Reply<()>) returns (r: Outcome)
      modifies this
      ensures !loading && recommendedUniversities == old(recommendedUniversities)
      ensures reply.Ok? ==>
        universities == MarkLocked(old(universities), universityId) && error == None && r == Outcome(true, [], None)
      ensures reply.Failed? ==>
        var message := ErrorText(reply.message, "Failed to lock university");
        universities == old(universities) && error == Some(message) && r == Outcome(false, [], Some(message))
    {
      loading := true;
      error := None;
      if reply.Ok? {
        universities := MarkLocked(universities, universityId);
        r := Outcome(true, [], None);
      } else {
        var message := ErrorText(reply.message, "Failed to lock university");
        error := Some(message);
        r := Outcome(false, [], Some(message));
      }
      loading := false;
    }

    /** `unlockUniversity`: on success the lock flag of the entries is
        cleared; the shortlist flag stays. */
    method UnlockUniversity(universityId: Id, reply: Reply<()>) returns (r: Outcome)
      modifies this
      ensures !loading && recommendedUniversities == old(recommendedUniversities)
      ensures reply.Ok? ==>
        universities == MarkUnlocked(old(universities), universityId) && error == None && r == Outcome(true, [], None)
      ensures reply.Failed? ==>
        var message := ErrorText(reply.message, "Failed to unlock university");
        universities == old(universities) && error == Some(message) && r == Outcome(false, [], Some(message))
    {
      loading := true;
      error := None;
      if reply.Ok? {
        universities := MarkUnlocked(universities, universityId);
        r := Outcome(true, [], None);
      } else {
        var message := ErrorText(reply.message, "Failed to unlock university");
        error := Some(message);
        r := Outcome(false, [], Some(message));
      }
      loading := false;
    }
  }
}
