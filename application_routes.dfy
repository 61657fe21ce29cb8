/** The server's application routes (backend/routes/application.js): the
    partial update of one application and the aggregation of the tasks and
    documents of the locked applications. */
module ApplicationRoutes {
  import opened Records
  import opened Wrappers
  import opened Store
  import opened Sequences

  // ---------------------------------------------------------------------
  // PUT /:id

  /** The request body. A missing string is "", a missing array `None`;
      any array, even an empty one, is truthy. */
  datatype Body = Body(applicationStatus: string, deadline: string, tasks: Option<seq<Task>>, documents: Option<seq<Document>>)

  /** The `deadline` column is a DATE: `asDate(s)` is the value the
      database stores for the string `s` (`new Date(s)`, sent back as an ISO
      timestamp), or `None` when `s` names no date and the database rejects
      it. Date parsing belongs to the engine and the database, so the model
      takes it as a parameter. */
  type DateParser = string -> Option<string>

  /** The `updates` object and `application.update(updates)`: each truthy
      field of the body replaces the stored one. A status the column's enum
      does not list, or a deadline that is not a date, is rejected by the
      database and answered by the route's `catch` (the route's validators
      are declared but never consulted). */
  function Merge(app: Application, body: Body, asDate: DateParser): (r: Result<Application, RouteError>)
    ensures r.Success? <==>
      && (body.applicationStatus == [] || StatusNamed(body.applicationStatus).Some?)
      && (body.deadline == [] || asDate(body.deadline).Some?)
    ensures r.Failure? ==> r.error == ServerError
    ensures r.Success? ==>
      && r.value.id == app.id && r.value.profileId == app.profileId
      && r.value.universityId == app.universityId && r.value.isLocked == app.isLocked
      && r.value.applicationStatus ==
           (if body.applicationStatus == [] then app.applicationStatus else StatusNamed(body.applicationStatus).value)
      && r.value.deadline == (if body.deadline == [] then app.deadline else asDate(body.deadline).value)
      && r.value.tasks == (if body.tasks.Some? then body.tasks.value else app.tasks)
      && r.value.documents == (if body.documents.Some? then body.documents.value else app.documents)
  {
    var status := if body.applicationStatus == [] then Some(app.applicationStatus) else StatusNamed(body.applicationStatus);
    var deadline := if body.deadline == [] then Some(app.deadline) else asDate(body.deadline);
    if status.None? || deadline.None? then Failure(ServerError)
    else
      Success(app.(
        applicationStatus := status.value,
        deadline := deadline.value,
        tasks := if body.tasks.Some? then body.tasks.value else app.tasks,
        documents := if body.documents.Some? then body.documents.value else app.documents))
  }

  /** An empty body changes nothing, and merging is idempotent. */
  lemma MergeIdempotent(app: Application, body: Body, asDate: DateParser)
    ensures Merge(app, Body([], [], None, None), asDate) == Success(app)
    ensures Merge(app, body, asDate).Success? ==>
      Merge(Merge(app, body, asDate).value, body, asDate) == Merge(app, body, asDate)
  {
  }

  /** A body holding only a task list replaces the tasks and nothing else. */
  lemma TasksOnlyBody(app: Application, tasks: seq<Task>, asDate: DateParser)
    ensures Merge(app, Body([], [], Some(tasks), None), asDate) == Success(app.(tasks := tasks))
  {
  }

  /** `PUT /:id`: 404 unless the user's profile owns an application with that
      id; otherwise the merge is stored in place of the row. */
  method UpdateApplication(db: Database, userId: Id, id: Id, body: Body, asDate: DateParser) returns (r: Result<Application, RouteError>)
    requires db.Valid()
    modifies db
    ensures db.Valid()
    ensures db.universities == old(db.universities) && db.profiles == old(db.profiles)
    ensures FindProfile(db.profiles, userId).None? ==>
      r == Failure(NotFound("Application not found")) && db.applications == old(db.applications)
    ensures FindProfile(db.profiles, userId).Some? ==>
      var k := FindApplicationById(old(db.applications), id, db.profiles[FindProfile(db.profiles, userId).value].id);
      && (k.None? ==> r == Failure(NotFound("Application not found")) && db.applications == old(db.applications))
      && (k.Some? ==>
            var merged := Merge(old(db.applications)[k.value], body, asDate);
            && r == merged
            && db.applications == if merged.Success? then old(db.applications)[k.value := merged.value] else old(db.applications))
  {
    // Without a profile the lookup runs with `profileId: null`, which no row has.
    var p := FindProfile(db.profiles, userId);
    if p.None? {
      return Failure(NotFound("Application not found"));
    }
    var profileId := db.profiles[p.value].id;
    var k := FindApplicationById(db.applications, id, profileId);
    if k.None? {
      return Failure(NotFound("Application not found"));
    }
    r := Merge(db.applications[k.value], body, asDate);
    if r.Success? {
      MergeKeepsUnique(db.applications, k.value, r.value);
      db.applications := db.applications[k.value := r.value];
    }
  }

  /** Replacing a row by one with the same id and pair keeps the table
      unique. */
  lemma MergeKeepsUnique(apps: seq<Application>, k: nat, app: Application)
    requires Unique(apps) && k < |apps|
    requires app.id == apps[k].id && app.profileId == apps[k].profileId && app.universityId == apps[k].universityId
    ensures Unique(apps[k := app])
  {
    var r := apps[k := app];
    assert forall i :: 0 <= i < |apps| ==>
      r[i].id == apps[i].id && r[i].profileId == apps[i].profileId && r[i].universityId == apps[i].universityId;
  }

  // ---------------------------------------------------------------------
  // GET /tasks and GET /documents

  /** `{ ...item, universityId: app.universityId, applicationId: app.id }`. */
  datatype Tagged<T> = Tagged(item: T, universityId: Id, applicationId: Id)

  /** `array.flatMap(f)`. */
  function FlatMap<A, B>(s: seq<A>, f: A -> seq<B>): seq<B> {
    if s == [] then [] else f(s[0]) + FlatMap(s[1..], f)
  }

  function SumLengths<A, B>(s: seq<A>, f: A -> seq<B>): nat {
    if s == [] then 0 else |f(s[0])| + SumLengths(s[1..], f)
  }

  /** The aggregate is as long as the parts together. */
  lemma {:induction false} FlatMapLength<A, B>(s: seq<A>, f: A -> seq<B>)
    ensures |FlatMap(s, f)| == SumLengths(s, f)
  {
    if s != [] {
      FlatMapLength(s[1..], f);
    }
  }

  /** The aggregate of two lists of applications is the concatenation of
      their aggregates: the parts appear in application order. */
  lemma {:induction false} FlatMapAppend<A, B>(s: seq<A>, t: seq<A>, f: A -> seq<B>)
    ensures FlatMap(s + t, f) == FlatMap(s, f) + FlatMap(t, f)
  {
    if s == [] {
      assert s + t == t;
    } else {
      assert (s + t)[1..] == s[1..] + t;
      FlatMapAppend(s[1..], t, f);
    }
  }

  /** Every element of the aggregate comes from the part of one input. */
  lemma {:induction false} FlatMapMember<A, B>(s: seq<A>, f: A -> seq<B>, b: B)
    ensures b in FlatMap(s, f) <==> exists a :: a in s && b in f(a)
  {
    if s != [] {
      FlatMapMember(s[1..], f, b);
      assert forall a :: a in s <==> a == s[0] || a in s[1..];
    }
  }

  function TagTasks(app: Application): (r: seq<Tagged<Task>>)
    ensures |r| == |app.tasks|
    ensures forall i :: 0 <= i < |r| ==> r[i] == Tagged(app.tasks[i], app.universityId, app.id)
  {
    seq(|app.tasks|, i requires 0 <= i < |app.tasks| => Tagged(app.tasks[i], app.universityId, app.id))
  }

  function TagDocuments(app: Application): (r: seq<Tagged<Document>>)
    ensures |r| == |app.documents|
    ensures forall i :: 0 <= i < |r| ==> r[i] == Tagged(app.documents[i], app.universityId, app.id)
  {
    seq(|app.documents|, i requires 0 <= i < |app.documents| => Tagged(app.documents[i], app.universityId, app.id))
  }

  /** `Application.findAll({ where: { profileId, isLocked: true } })`. */
  function LockedOf(apps: seq<Application>, profileId: Id): (r: seq<Application>)
    ensures forall a :: a in r <==> a in apps && a.profileId == profileId && a.isLocked
  {
    var keep := (a: Application) => a.profileId == profileId && a.isLocked;
    FilterMembers(apps, keep);
    Filter(apps, keep)
  }

  /** Every aggregated task is a task of a locked application of the
      profile, tagged with that application's ids; and there are as many as
      those applications have tasks together. */
  lemma AllTasksSpec(apps: seq<Application>, profileId: Id, t: Tagged<Task>)
    ensures var locked := LockedOf(apps, profileId);
      && |FlatMap(locked, TagTasks)| == SumLengths(locked, TagTasks)
      && (t in FlatMap(locked, TagTasks) <==>
            exists a :: a in apps && a.profileId == profileId && a.isLocked
              && t.applicationId == a.id && t.universityId == a.universityId && t.item in a.tasks)
  {
    var locked := LockedOf(apps, profileId);
    FlatMapLength(locked, TagTasks);
    FlatMapMember(locked, TagTasks, t);
    forall a | a in locked
      ensures t in TagTasks(a) <==> t.applicationId == a.id && t.universityId == a.universityId && t.item in a.tasks
    {
      if t.item in a.tasks {
        var i :| 0 <= i < |a.tasks| && a.tasks[i] == t.item;
        assert t.applicationId == a.id && t.universityId == a.universityId ==> TagTasks(a)[i] == t;
      }
    }
  }

  /** The same for the aggregated documents. */
  lemma AllDocumentsSpec(apps: seq<Application>, profileId: Id, d: Tagged<Document>)
    ensures var locked := LockedOf(apps, profileId);
      && |FlatMap(locked, TagDocuments)| == SumLengths(locked, TagDocuments)
      && (d in FlatMap(locked, TagDocuments) <==>
            exists a :: a in apps && a.profileId == profileId && a.isLocked
              && d.applicationId == a.id && d.universityId == a.universityId && d.item in a.documents)
  {
    var locked := LockedOf(apps, profileId);
    FlatMapLength(locked, TagDocuments);
    FlatMapMember(locked, TagDocuments, d);
    forall a | a in locked
      ensures d in TagDocuments(a) <==> d.applicationId == a.id && d.universityId == a.universityId && d.item in a.documents
    {
      if d.item in a.documents {
        var i :| 0 <= i < |a.documents| && a.documents[i] == d.item;
        assert d.applicationId == a.id && d.universityId == a.universityId ==> TagDocuments(a)[i] == d;
      }
    }
  }

  /** `GET /tasks`; without a profile the query matches nothing. */
  method GetTasks(db: Database, userId: Id) returns (tasks: seq<Tagged<Task>>)
    ensures FindProfile(db.profiles, userId).None? ==> tasks == []
    ensures FindProfile(db.profiles, userId).Some? ==>
      tasks == FlatMap(LockedOf(db.applications, db.profiles[FindProfile(db.profiles, userId).value].id), TagTasks)
  {
    var p := FindProfile(db.profiles, userId);
    if p.None? {
      return [];
    }
    var applications := LockedOf(db.applications, db.profiles[p.value].id);
    tasks := FlatMap(applications, TagTasks);
  }

  /** `GET /documents`. */
  method GetDocuments(db: Database, userId: Id) returns (documents: seq<Tagged<Document>>)
    ensures FindProfile(db.profiles, userId).None? ==> documents == []
    ensures FindProfile(db.profiles, userId).Some? ==>
      documents == FlatMap(LockedOf(db.applications, db.profiles[FindProfile(db.profiles, userId).value].id), TagDocuments)
  {
    var p := FindProfile(db.profiles, userId);
    if p.None? {
      return [];
    }
    var applications := LockedOf(db.applications, db.profiles[p.value].id);
    documents := FlatMap(applications, TagDocuments);
  }
}
