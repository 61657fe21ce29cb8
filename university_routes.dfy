/** The server side of the university catalog (backend/routes/university.js):
    the fit-score calculation, the tier bands, the recommendation listing,
    and the shortlist, lock and unlock rules over the application table. */
module UniversityRoutes {
  import opened Js
  import opened Rubric
  import opened Records
  import opened Wrappers
  import opened FitRubric
  import opened Sequences
  import opened Store

  // ---------------------------------------------------------------------
  // Fit score and tier.

  /** `calculateFitScore(university, profile)`: accumulates `score` and
      `maxScore` component by component and rounds the percentage. */
  method CalculateFitScore(university: Option<University>, profile: Option<Profile>) returns (fit: nat)
    ensures fit == FitScore(university, profile)
  {
    if profile.None? || university.None? {
      return 0;
    }
    var p, u := profile.value, university.value;
    var req := u.requirements;
    var score, maxScore := 0, 0;

    // Academic fit
    if Truthy(p.gpa) && Truthy(req.gpa) {
      maxScore := maxScore + 40;
      var userGpa, reqGpa := ParseFloat(p.gpa), ParseFloat(req.gpa);
      if Ge(userGpa, reqGpa) {
        score := score + 40;
      } else if Ge(userGpa, Minus(reqGpa, 0.5)) {
        score := score + 20;
      }
    }
    assert score == GpaPart(p, req).earned && maxScore == GpaPart(p, req).weight;

    // Exam fit
    if Truthy(p.ielts) && Truthy(req.ielts) {
      maxScore := maxScore + 30;
      var userIelts, reqIelts := ParseFloat(p.ielts), ParseFloat(req.ielts);
      if Ge(userIelts, reqIelts) {
        score := score + 30;
      } else if Ge(userIelts, Minus(reqIelts, 0.5)) {
        score := score + 15;
      }
    } else if Truthy(p.toefl) && Truthy(req.toefl) {
      maxScore := maxScore + 30;
      if Ge(ToNumber(p.toefl), ToNumber(req.toefl)) {
        score := score + 30;
      } else if Ge(ToNumber(p.toefl), Minus(ToNumber(req.toefl), 10.0)) {
        score := score + 15;
      }
    }
    assert score == GpaPart(p, req).earned + EnglishPart(p, req).earned;
    assert maxScore == GpaPart(p, req).weight + EnglishPart(p, req).weight;

    // GRE/GMAT fit
    if Truthy(p.gre) && Truthy(req.gre) {
      maxScore := maxScore + 20;
      if Ge(ToNumber(p.gre), ToNumber(req.gre)) {
        score := score + 20;
      } else if Ge(ToNumber(p.gre), Minus(ToNumber(req.gre), 20.0)) {
        score := score + 10;
      }
    } else if Truthy(p.gmat) && Truthy(req.gmat) {
      maxScore := maxScore + 20;
      if Ge(ToNumber(p.gmat), ToNumber(req.gmat)) {
        score := score + 20;
      } else if Ge(ToNumber(p.gmat), Minus(ToNumber(req.gmat), 50.0)) {
        score := score + 10;
      }
    }
    assert score == GpaPart(p, req).earned + EnglishPart(p, req).earned + ExamPart(p, req).earned;
    assert maxScore == GpaPart(p, req).weight + EnglishPart(p, req).weight + ExamPart(p, req).weight;

    // Budget fit
    if Truthy(p.budget) && Truthy(u.cost) {
      maxScore := maxScore + 10;
      var budget, cost := ParseFloat(p.budget), ParseFloat(u.cost);
      if Ge(budget, cost) {
        score := score + 10;
      } else if Ge(Times(budget, 1.2), cost) {
        score := score + 5;
      }
    }

    assert score == Score(u, p) && maxScore == MaxScore(u, p);
    fit := if maxScore > 0 then Percent(score, maxScore) else 0;
  }

  /** `categorizeUniversity(fitScore)`: each band includes its lower bound. */
  function CategorizeUniversity(fitScore: int): (c: Category)
    ensures c == Safe <==> fitScore >= 80
    ensures c == Target <==> 60 <= fitScore < 80
    ensures c == Dream <==> fitScore < 60
  {
    if fitScore >= 80 then Safe
    else if fitScore >= 60 then Target
    else Dream
  }

  /** The tier never drops when the score rises. */
  lemma CategoryMonotone(s: int, t: int)
    requires s <= t
    ensures CategorizeUniversity(s) == Safe ==> CategorizeUniversity(t) == Safe
    ensures CategorizeUniversity(s) == Target ==> CategorizeUniversity(t) != Dream
  {
  }

  // ---------------------------------------------------------------------
  // Recommendations.

  /** `applications.find(a => a.universityId === universityId)`. */
  function FindByUniversity(apps: seq<Application>, universityId: Id): (r: Option<Application>)
    ensures r.Some? <==> exists k :: 0 <= k < |apps| && apps[k].universityId == universityId
    ensures r.Some? ==> r.value in apps && r.value.universityId == universityId
  {
    if apps == [] then None
    else if apps[0].universityId == universityId then Some(apps[0])
    else
      var r := FindByUniversity(apps[1..], universityId);
      assert forall k :: 1 <= k < |apps| ==> apps[k] == apps[1..][k - 1];
      r
  }

  /** The applications of one profile, in table order. */
  function OwnedBy(apps: seq<Application>, profileId: Id): (r: seq<Application>)
    ensures forall a :: a in r <==> a in apps && a.profileId == profileId
  {
    var keep := (a: Application) => a.profileId == profileId;
    FilterMembers(apps, keep);
    Filter(apps, keep)
  }

  /** One university with its score, its tier and its two flags. */
  function Annotate(u: University, p: Profile, apps: seq<Application>): (e: Entry)
    ensures e.university == u
    ensures e.fitScore == Some(FitScore(Some(u), Some(p)))
    ensures e.category == Some(CategorizeUniversity(FitScore(Some(u), Some(p))))
    ensures e.isShortlisted <==> exists k :: 0 <= k < |apps| && apps[k].universityId == u.id
    ensures e.isLocked ==> e.isShortlisted
  {
    var fit := FitScore(Some(u), Some(p));
    var app := FindByUniversity(apps, u.id);
    Entry(u, Some(fit), Some(CategorizeUniversity(fit)), app.Some?, app.Some? && app.value.isLocked)
  }

  function Annotated(universities: seq<University>, p: Profile, apps: seq<Application>): (r: seq<Entry>)
    ensures |r| == |universities|
    ensures forall i :: 0 <= i < |r| ==> r[i] == Annotate(universities[i], p, apps)
  {
    seq(|universities|, i requires 0 <= i < |universities| => Annotate(universities[i], p, apps))
  }

  /** `fitScore || 0`: a missing score sorts as 0. */
  function ScoreKey(e: Entry): int {
    if e.fitScore.Some? then e.fitScore.value else 0
  }

  /** The comparator `(a, b) => (b.fitScore || 0) - (a.fitScore || 0)` read
      as "`a` may precede `b`". */
  function ByScoreDescending(a: Entry, b: Entry): bool {
    ScoreKey(b) - ScoreKey(a) <= 0
  }

  /** What the endpoint returns: the annotated list sorted by score. */
  function Recommendations(universities: seq<University>, p: Profile, apps: seq<Application>): seq<Entry> {
    Sort(Annotated(universities, p, apps), ByScoreDescending)
  }

  lemma ByScorePreorder(dom: set<Entry>)
    ensures PreorderOn(ByScoreDescending, dom)
  {
  }

  /** The recommendations are a permutation of the annotated universities,
      ordered by non-increasing score, each carrying its own score, tier and
      flags: shortlisted exactly when the profile has an application for it,
      locked exactly when the first such application is locked. */
  lemma RecommendationsSpec(universities: seq<University>, p: Profile, apps: seq<Application>)
    ensures var r := Recommendations(universities, p, apps);
      && |r| == |universities|
      && multiset(r) == multiset(Annotated(universities, p, apps))
      && (forall i, j :: 0 <= i < j < |r| ==> ScoreKey(r[i]) >= ScoreKey(r[j]))
      && (forall e :: e in r ==> e.university in universities && e == Annotate(e.university, p, apps))
      && (forall e :: e in r ==>
            (e.isShortlisted <==> FindByUniversity(apps, e.university.id).Some?)
            && (e.isLocked <==> FindByUniversity(apps, e.university.id).Some? && FindByUniversity(apps, e.university.id).value.isLocked))
  {
    var a := Annotated(universities, p, apps);
    var r := Recommendations(universities, p, apps);
    var dom := set e | e in a;
    ByScorePreorder(dom);
    SortSorted(a, ByScoreDescending, dom);
    SortPermutes(a, ByScoreDescending);
    assert |r| == |multiset(r)| == |multiset(a)| == |a|;
    forall e | e in r ensures e.university in universities && e == Annotate(e.university, p, apps) {
      assert e in multiset(a);
      var i :| 0 <= i < |a| && a[i] == e;
    }
  }

  /** Ties keep their input order: the entries with any one score appear in
      the recommendations in the order of the university list. */
  lemma RecommendationsStable(universities: seq<University>, p: Profile, apps: seq<Application>, k: Entry)
    requires k in Annotated(universities, p, apps)
    ensures Filter(Recommendations(universities, p, apps), EquivalentTo(ByScoreDescending, k))
         == Filter(Annotated(universities, p, apps), EquivalentTo(ByScoreDescending, k))
  {
    var a := Annotated(universities, p, apps);
    var dom := set e | e in a;
    ByScorePreorder(dom);
    SortStable(a, ByScoreDescending, dom, k);
  }

  /** The entries the comparator cannot order are those with equal scores. */
  lemma EquivalentMeansSameScore(k: Entry, e: Entry)
    ensures EquivalentTo(ByScoreDescending, k)(e) <==> ScoreKey(e) == ScoreKey(k)
  {
    assert EquivalentTo(ByScoreDescending, k)(e) == (ByScoreDescending(e, k) && ByScoreDescending(k, e));
  }

  /** `POST /recommend`: 404 without a profile; otherwise every university
      annotated against the profile and its applications, then sorted in
      place by descending score. */
  method Recommend(db: Database, userId: Id) returns (r: Result<seq<Entry>, RouteError>)
    ensures FindProfile(db.profiles, userId).None? ==>
      r == Failure(NotFound("Profile not found. Please complete onboarding first."))
    ensures FindProfile(db.profiles, userId).Some? ==>
      var p := db.profiles[FindProfile(db.profiles, userId).value];
      r == Success(Recommendations(db.universities, p, OwnedBy(db.applications, p.id)))
  {
    var k := FindProfile(db.profiles, userId);
    if k.None? {
      return Failure(NotFound("Profile not found. Please complete onboarding first."));
    }
    var profile := db.profiles[k.value];
    var universities := db.universities;
    var applications := OwnedBy(db.applications, profile.id);

    var withScores: seq<Entry> := [];
    for i := 0 to |universities|
      invariant withScores == Annotated(universities[..i], profile, applications)
    {
      var u := universities[i];
      var fitScore := CalculateFitScore(Some(u), Some(profile));
      var category := CategorizeUniversity(fitScore);
      var app := FindByUniversity(applications, u.id);
      withScores := withScores + [Entry(u, Some(fitScore), Some(category), app.Some?, app.Some? && app.value.isLocked)];
      assert universities[..i + 1] == universities[..i] + [u];
    }
    assert universities[..|universities|] == universities;

    var sorted := new Entry[|withScores|](j requires 0 <= j < |withScores| => withScores[j]);
    assert sorted[..] == withScores;
    SortInPlace(sorted, ByScoreDescending);
    r := Success(sorted[..]);
  }

  /** The ranking example: two universities at 70 and one at 90 come out as
      the 90 first, then the two 70s in their input order. */
  lemma RankExample(a: Entry, b: Entry, c: Entry)
    requires a.fitScore == Some(70) && b.fitScore == Some(70) && c.fitScore == Some(90)
    ensures Sort([a, b, c], ByScoreDescending) == [c, a, b]
  {
    var le := ByScoreDescending;
    assert le(a, b) && !le(b, c) && !le(a, c);
    InsertAt(c, [], 0, le);
    assert Sort([c], le) == [c] by {
      assert [c][1..] == [];
    }
    InsertAt(b, [c], 1, le);
    assert Sort([b, c], le) == [c, b] by {
      assert [b, c][1..] == [c];
    }
    InsertAt(a, [c, b], 1, le);
    assert [c, b][..1] + [a] + [c, b][1..] == [c, a, b];
    assert [a, b, c][1..] == [b, c];
  }

  // ---------------------------------------------------------------------
  // Shortlist, lock and unlock, over the application table.

  /** A new row as `Application.create` fills it from the column defaults. */
  function NewApplication(id: Id, profileId: Id, universityId: Id, isLocked: bool): Application {
    Application(id, profileId, universityId, isLocked, NotStarted, "", [], [])
  }

  datatype Shortlisting = Shortlisting(apps: seq<Application>, application: Application, created: bool)

  /** `Application.findOrCreate` for the pair, creating with `newId`. */
  function FindOrCreate(apps: seq<Application>, profileId: Id, universityId: Id, newId: Id): (s: Shortlisting)
    ensures s.created <==> FindApplication(apps, profileId, universityId).None?
    ensures s.application.profileId == profileId && s.application.universityId == universityId
    ensures s.application in s.apps
  {
    match FindApplication(apps, profileId, universityId)
    case Some(k) => Shortlisting(apps, apps[k], false)
    case None =>
      var app := NewApplication(newId, profileId, universityId, false);
      Shortlisting(apps + [app], app, true)
  }

  /** Appending a row for a pair that had none keeps the table unique. */
  lemma AppendKeepsUnique(apps: seq<Application>, app: Application)
    requires Unique(apps) && FreshId(apps, app.id)
    requires FindApplication(apps, app.profileId, app.universityId).None?
    ensures Unique(apps + [app])
    ensures FindApplication(apps + [app], app.profileId, app.universityId) == Some(|apps|)
  {
    var r := apps + [app];
    assert forall i :: 0 <= i < |apps| ==> r[i] == apps[i];
    assert r[|apps|] == app;
    var f := FindApplication(r, app.profileId, app.universityId);
    assert f.Some? && f.value == |apps| by {
      assert r[|apps|].profileId == app.profileId && r[|apps|].universityId == app.universityId;
    }
  }

  /** Shortlisting keeps the table unique, and a second shortlisting of the
      same pair creates nothing: it returns the same row and leaves the table
      as the first left it. */
  lemma {:induction false} ShortlistIdempotent(apps: seq<Application>, profileId: Id, universityId: Id, id1: Id, id2: Id)
    requires Unique(apps) && FreshId(apps, id1)
    ensures var s1 := FindOrCreate(apps, profileId, universityId, id1);
      var s2 := FindOrCreate(s1.apps, profileId, universityId, id2);
      && Unique(s1.apps)
      && !s2.created && s2.apps == s1.apps && s2.application == s1.application
  {
    if FindApplication(apps, profileId, universityId).None? {
      AppendKeepsUnique(apps, NewApplication(id1, profileId, universityId, false));
    }
  }

  /** The table after `POST /:id/lock`: the pair's row is updated to locked,
      or a locked row is created. */
  function LockInTable(apps: seq<Application>, profileId: Id, universityId: Id, newId: Id): (r: seq<Application>)
    ensures |r| >= |apps|
  {
    match FindApplication(apps, profileId, universityId)
    case Some(k) => apps[k := apps[k].(isLocked := true)]
    case None => apps + [NewApplication(newId, profileId, universityId, true)]
  }

  /** The pair's row holds the key. */
  predicate HasKey(a: Application, profileId: Id, universityId: Id) {
    a.profileId == profileId && a.universityId == universityId
  }

  /** After a lock there is exactly one row for the pair and it is locked;
      every other row is unchanged, as are the other fields of an existing
      row; and the table stays unique. */
  lemma {:induction false} LockLeavesOneLockedRow(apps: seq<Application>, profileId: Id, universityId: Id, newId: Id)
    requires Unique(apps) && FreshId(apps, newId)
    ensures var r := LockInTable(apps, profileId, universityId, newId);
      && Unique(r)
      && (exists k :: 0 <= k < |r| && HasKey(r[k], profileId, universityId) && r[k].isLocked)
      && (forall i, j :: 0 <= i < |r| && 0 <= j < |r| && HasKey(r[i], profileId, universityId) && HasKey(r[j], profileId, universityId) ==> i == j)
      && (forall i :: 0 <= i < |apps| && !HasKey(apps[i], profileId, universityId) ==> r[i] == apps[i])
      && (forall i :: 0 <= i < |apps| && HasKey(apps[i], profileId, universityId) ==> r[i] == apps[i].(isLocked := true))
  {
    var r := LockInTable(apps, profileId, universityId, newId);
    match FindApplication(apps, profileId, universityId)
    case Some(k) =>
      assert HasKey(r[k], profileId, universityId) && r[k].isLocked;
      forall i | 0 <= i < |apps| ensures HasKey(apps[i], profileId, universityId) ==> i == k {
        KeyDetermines(apps, i, k);
      }
    case None =>
      var app := NewApplication(newId, profileId, universityId, true);
      AppendKeepsUnique(apps, app);
      assert HasKey(r[|apps|], profileId, universityId) && r[|apps|].isLocked;
  }

  /** Locking twice leaves the table as locking once. */
  lemma LockIdempotent(apps: seq<Application>, profileId: Id, universityId: Id, id1: Id, id2: Id)
    requires Unique(apps) && FreshId(apps, id1)
    ensures var once := LockInTable(apps, profileId, universityId, id1);
      LockInTable(once, profileId, universityId, id2) == once
  {
    if FindApplication(apps, profileId, universityId).None? {
      AppendKeepsUnique(apps, NewApplication(id1, profileId, universityId, true));
    }
  }

  /** The table after `POST /:id/unlock`: only the pair's `isLocked` is
      cleared, and nothing happens when there is no row. */
  function UnlockInTable(apps: seq<Application>, profileId: Id, universityId: Id): (r: seq<Application>)
    ensures |r| == |apps|
  {
    match FindApplication(apps, profileId, universityId)
    case Some(k) => apps[k := apps[k].(isLocked := false)]
    case None => apps
  }

  /** Unlocking clears `isLocked` on the pair's row and changes nothing else;
      after it no row of the pair is locked. */
  lemma UnlockOnlyClearsLock(apps: seq<Application>, profileId: Id, universityId: Id)
    requires Unique(apps)
    ensures var r := UnlockInTable(apps, profileId, universityId);
      && (forall i :: 0 <= i < |apps| ==> r[i] == apps[i] || (HasKey(apps[i], profileId, universityId) && r[i] == apps[i].(isLocked := false)))
      && (forall i :: 0 <= i < |r| && HasKey(r[i], profileId, universityId) ==> !r[i].isLocked)
  {
    match FindApplication(apps, profileId, universityId)
    case Some(k) =>
      forall i | 0 <= i < |apps| ensures i != k ==> !HasKey(apps[i], profileId, universityId) {
        KeyDetermines(apps, i, k);
      }
    case None =>
  }

  /** Locking and then unlocking leaves the university shortlisted and
      unlocked. */
  lemma LockThenUnlock(apps: seq<Application>, profileId: Id, universityId: Id, newId: Id)
    requires Unique(apps) && FreshId(apps, newId)
    ensures var r := UnlockInTable(LockInTable(apps, profileId, universityId, newId), profileId, universityId);
      && FindApplication(r, profileId, universityId).Some?
      && !r[FindApplication(r, profileId, universityId).value].isLocked
  {
    var locked := LockInTable(apps, profileId, universityId, newId);
    LockLeavesOneLockedRow(apps, profileId, universityId, newId);
    UnlockOnlyClearsLock(locked, profileId, universityId);
  }

  datatype ShortlistReply = ShortlistReply(message: string, application: Application)

  /** `POST /:id/shortlist`. A university id that names no university has
      no row, and the row `findOrCreate` then inserts breaks the foreign key:
      the `catch` answers 500 and nothing is stored. */
  method Shortlist(db: Database, userId: Id, universityId: Id, newId: Id) returns (r: Result<ShortlistReply, RouteError>)
    requires db.Valid() && FreshId(db.applications, newId)
    modifies db
    ensures db.Valid()
    ensures db.universities == old(db.universities) && db.profiles == old(db.profiles)
    ensures FindProfile(db.profiles, userId).None? ==>
      r == Failure(NotFound("Profile not found")) && db.applications == old(db.applications)
    ensures FindProfile(db.profiles, userId).Some? && !Names(db.universities, universityId) ==>
      r == Failure(ServerError) && db.applications == old(db.applications)
    ensures FindProfile(db.profiles, userId).Some? && Names(db.universities, universityId) ==>
      var s := FindOrCreate(old(db.applications), db.profiles[FindProfile(db.profiles, userId).value].id, universityId, newId);
      && db.applications == s.apps
      && r == Success(ShortlistReply(
           if s.created then "University shortlisted successfully" else "University already in your list",
           s.application))
  {
    var k := FindProfile(db.profiles, userId);
    if k.None? {
      return Failure(NotFound("Profile not found"));
    }
    var profile := db.profiles[k.value];
    UnknownUniversityHasNoRow(db.applications, db.universities, profile.id, universityId);
    if FindApplication(db.applications, profile.id, universityId).None? && !Names(db.universities, universityId) {
      // The insert of `findOrCreate` breaks the foreign key.
      return Failure(ServerError);
    }
    var s := FindOrCreate(db.applications, profile.id, universityId, newId);
    ShortlistIdempotent(db.applications, profile.id, universityId, newId, newId);
    db.applications := s.apps;
    var message := if s.created then "University shortlisted successfully" else "University already in your list";
    r := Success(ShortlistReply(message, s.application));
  }

  /** `POST /:id/lock`: locks the pair's row, creating it if needed, and
      moves the profile to the 'Preparing Applications' stage. For a
      university id that names no university the `create` breaks the
      foreign key before the stage is set: 500, and nothing changes. */
  method Lock(db: Database, userId: Id, universityId: Id, newId: Id) returns (r: Result<Application, RouteError>)
    requires db.Valid() && FreshId(db.applications, newId)
    modifies db
    ensures db.Valid()
    ensures db.universities == old(db.universities)
    ensures FindProfile(old(db.profiles), userId).None? ==>
      r == Failure(NotFound("Profile not found")) && db.applications == old(db.applications) && db.profiles == old(db.profiles)
    ensures FindProfile(old(db.profiles), userId).Some? && !Names(db.universities, universityId) ==>
      r == Failure(ServerError) && db.applications == old(db.applications) && db.profiles == old(db.profiles)
    ensures FindProfile(old(db.profiles), userId).Some? && Names(db.universities, universityId) ==>
      var k := FindProfile(old(db.profiles), userId).value;
      var p := old(db.profiles)[k];
      && db.applications == LockInTable(old(db.applications), p.id, universityId, newId)
      && db.profiles == old(db.profiles)[k := p.(stage := "Preparing Applications")]
      && r.Success? && r.value.isLocked && HasKey(r.value, p.id, universityId) && r.value in db.applications
  {
    var k := FindProfile(db.profiles, userId);
    if k.None? {
      return Failure(NotFound("Profile not found"));
    }
    var profile := db.profiles[k.value];
    var found := FindApplication(db.applications, profile.id, universityId);
    UnknownUniversityHasNoRow(db.applications, db.universities, profile.id, universityId);
    if found.None? && !Names(db.universities, universityId) {
      // `Application.create` breaks the foreign key.
      return Failure(ServerError);
    }
    LockLeavesOneLockedRow(db.applications, profile.id, universityId, newId);
    var application: Application;
    if found.Some? {
      application := db.applications[found.value].(isLocked := true);
      db.applications := db.applications[found.value := application];
    } else {
      application := NewApplication(newId, profile.id, universityId, true);
      db.applications := db.applications + [application];
    }
    db.profiles := db.profiles[k.value := profile.(stage := "Preparing Applications")];
    r := Success(application);
  }

  /** `POST /:id/unlock`: clears the pair's lock if there is a row. */
  method Unlock(db: Database, userId: Id, universityId: Id) returns (r: Result<string, RouteError>)
    requires db.Valid()
    modifies db
    ensures db.Valid()
    ensures db.universities == old(db.universities) && db.profiles == old(db.profiles)
    ensures FindProfile(db.profiles, userId).None? ==>
      r == Failure(NotFound("Profile not found")) && db.applications == old(db.applications)
    ensures FindProfile(db.profiles, userId).Some? ==>
      && db.applications == UnlockInTable(old(db.applications), db.profiles[FindProfile(db.profiles, userId).value].id, universityId)
      && r == Success("University unlocked successfully")
  {
    var k := FindProfile(db.profiles, userId);
    if k.None? {
      return Failure(NotFound("Profile not found"));
    }
    var profile := db.profiles[k.value];
    var found := FindApplication(db.applications, profile.id, universityId);
    if found.Some? {
      assert Unique(db.applications[found.value := db.applications[found.value].(isLocked := false)]);
      db.applications := db.applications[found.value := db.applications[found.value].(isLocked := false)];
    }
    r := Success("University unlocked successfully");
  }
}
